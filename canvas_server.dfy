// engine/servers/rendering/canvas/server.py: re-parenting canvas items and building the
// z-sorted render list of a canvas.
module CanvasServers {
  import opened Wrappers
  import opened Colors
  import opened CanvasStore

  // ------------------------------------------------------------- re-parenting
  /** _detach_item, lines 72-83: an item with a parent leaves that parent's children
      (if the parent still exists and lists it) and loses its parent; otherwise an item
      on a canvas leaves that canvas's roots (if the canvas still exists and lists it).
      Either way it ends on no canvas. */
  function Detached(t: Tree, item: int): (r: Tree)
    requires item in t.items
    ensures r.items.Keys == t.items.Keys && r.canvases.Keys == t.canvases.Keys
    ensures forall k :: k in r.items ==> r.items[k].rid == t.items[k].rid
    ensures forall c :: c in r.canvases ==> r.canvases[c].rid == t.canvases[c].rid
  {
    var d := t.items[item];
    if d.parent.Some? then
      var p := d.parent.value;
      var items1 :=
        if p in t.items && item in t.items[p].children then t.items[p := t.items[p].(children := ListRemove(t.items[p].children, item))]
        else t.items;
      Tree(t.canvases, items1[item := items1[item].(parent := None, canvas := None)])
    else if d.canvas.Some? then
      var c := d.canvas.value;
      var canvases1 :=
        if c in t.canvases && item in t.canvases[c].itemRids then t.canvases[c := t.canvases[c].(itemRids := ListRemove(t.canvases[c].itemRids, item))]
        else t.canvases;
      Tree(canvases1, t.items[item := d.(canvas := None)])
    else Tree(t.canvases, t.items[item := d.(canvas := None)])
  }

  /** canvas_item_set_parent, lines 42-70, on the item tree. A parent id is looked up
      among the canvases first and among the items only after that. */
  function SetParentOf(t: Tree, item: int, parent: Option<int>): (r: Tree)
    ensures r.items.Keys == t.items.Keys && r.canvases.Keys == t.canvases.Keys
    ensures forall k :: k in r.items ==> r.items[k].rid == t.items[k].rid
    ensures forall c :: c in r.canvases ==> r.canvases[c].rid == t.canvases[c].rid
  {
    if item !in t.items then t
    else
      var u := Detached(t, item);
      match parent
      case None => u
      case Some(p) =>
        if p in u.canvases then
          Tree(u.canvases[p := u.canvases[p].(itemRids := u.canvases[p].itemRids + [item])],
               u.items[item := u.items[item].(canvas := Some(p), parent := None)])
        else if p !in u.items then u
        else
          var items1 := u.items[item := u.items[item].(parent := Some(p), canvas := u.items[p].canvas)];
          Tree(u.canvases, items1[p := items1[p].(children := items1[p].children + [item])])
  }

  /** Whether canvas_item_set_parent marks the canvas dirty: the item exists and the
      parent is None or names a canvas or an item. */
  predicate MarksDirty(t: Tree, item: int, parent: Option<int>) {
    item in t.items && (parent.None? || parent.value in t.canvases || parent.value in t.items)
  }

  /** The item leaves exactly one place. With a parent, that parent (if it lists the
      item) loses one occurrence of it and no canvas changes; without one, the canvas it
      was on (if that lists it) loses one occurrence and no other item changes. The item
      ends with neither parent nor canvas, and keeps everything else. */
  lemma DetachedMeaning(t: Tree, item: int)
    requires item in t.items
    ensures var was := t.items[item];
            Detached(t, item).items[item] ==
              was.(parent := None, canvas := None,
                   children := if was.parent == Some(item) && item in was.children then ListRemove(was.children, item) else was.children)
    ensures t.items[item].parent.Some? ==>
              Detached(t, item).canvases == t.canvases
              && var p := t.items[item].parent.value;
                 forall k :: k in t.items && k != item ==>
                   Detached(t, item).items[k] ==
                     if k == p && item in t.items[k].children then t.items[k].(children := ListRemove(t.items[k].children, item))
                     else t.items[k]
    ensures t.items[item].parent.None? ==>
              (forall k :: k in t.items && k != item ==> Detached(t, item).items[k] == t.items[k])
              && forall c :: c in t.canvases ==>
                   Detached(t, item).canvases[c].itemRids ==
                     if t.items[item].canvas == Some(c) && item in t.canvases[c].itemRids then ListRemove(t.canvases[c].itemRids, item)
                     else t.canvases[c].itemRids
  {
  }

  /** A canvas parent: the item becomes the last root of that canvas (leaving its old
      place among those roots, if it was one) with no parent item. */
  lemma SetParentToCanvas(t: Tree, item: int, p: int)
    requires item in t.items && p in t.canvases
    ensures var r := SetParentOf(t, item, Some(p));
            var was := t.items[item];
            var roots := t.canvases[p].itemRids;
            r.items[item].parent == None && r.items[item].canvas == Some(p)
            && r.canvases[p].itemRids ==
                 (if was.parent.None? && was.canvas == Some(p) && item in roots then ListRemove(roots, item) else roots) + [item]
  {
  }

  /** An item parent that is not also a canvas id: the item becomes the last child of
      that parent (leaving its old place among those children, if it was one) and takes
      the parent's canvas. */
  lemma SetParentToItem(t: Tree, item: int, p: int)
    requires item in t.items && p in t.items && p !in t.canvases && p != item
    ensures var r := SetParentOf(t, item, Some(p));
            var was := t.items[p];
            r.items[item].parent == Some(p) && r.items[item].canvas == was.canvas
            && r.items[p].children ==
                 (if t.items[item].parent == Some(p) && item in was.children then ListRemove(was.children, item) else was.children) + [item]
  {
    DetachedMeaning(t, item);
  }

  /** A parent id that names neither a canvas nor an item leaves the item detached, with
      neither parent nor canvas, and the state unmarked. */
  lemma SetParentUnknown(t: Tree, item: int, p: int)
    requires item in t.items && p !in t.canvases && p !in t.items
    ensures SetParentOf(t, item, Some(p)) == Detached(t, item)
    ensures SetParentOf(t, item, Some(p)).items[item].parent == None && SetParentOf(t, item, Some(p)).items[item].canvas == None
    ensures !MarksDirty(t, item, Some(p))
  {
    DetachedMeaning(t, item);
  }

  /** There is no cycle check: an item can be made its own parent and child. */
  lemma SelfParent(t: Tree, item: int)
    requires item in t.items && item !in t.canvases
    ensures SetParentOf(t, item, Some(item)).items[item].parent == Some(item)
    ensures item in SetParentOf(t, item, Some(item)).items[item].children
  {
  }

  /** When no id names both a canvas and an item (as the storage's single id counter
      guarantees), an existing item parent always adopts the item. */
  lemma ItemParentAdopts(t: Tree, item: int, p: int)
    requires t.canvases.Keys !! t.items.Keys
    requires item in t.items && p in t.items
    ensures SetParentOf(t, item, Some(p)).items[item].parent == Some(p)
    ensures item in SetParentOf(t, item, Some(p)).items[p].children
  {
  }

  /** As written, canvas, item and layer ids come from three counters that all start at
      1 (storage.py:33-35), and set_parent looks a parent id up among the canvases first:
      on a canvas with two items, asking for the second item to become a child of the
      first makes it a root of the canvas instead, and the first item gets no child. */
  method SeparateCountersShadow() returns (canvas: int, first: int, second: int)
    ensures canvas == 1 && first == 1 && second == 2
    ensures var t := Tree(map[canvas := CanvasData(canvas, [])], map[first := NewItem(first), second := NewItem(second)]);
            var r := SetParentOf(t, second, Some(first));
            r.items[second].parent == None && r.items[second].canvas == Some(canvas) && r.items[first].children == []
  {
    var nextCanvas, nextItem := 1, 1;
    canvas, nextCanvas := nextCanvas, nextCanvas + 1;
    first, nextItem := nextItem, nextItem + 1;
    second, nextItem := nextItem, nextItem + 1;
  }

  /** _detach_item, lines 72-83. */
  method Detach(t: Tree, item: int) returns (r: Tree)
    requires item in t.items
    ensures r == Detached(t, item)
  {
    var items := t.items;
    var d := items[item];
    if d.parent.Some? {
      var p := d.parent.value;
      if p in items && item in items[p].children {
        items := items[p := items[p].(children := ListRemove(items[p].children, item))];
      }
      r := Tree(t.canvases, items[item := items[item].(parent := None, canvas := None)]);
    } else {
      var canvases := t.canvases;
      if d.canvas.Some? {
        var c := d.canvas.value;
        if c in canvases && item in canvases[c].itemRids {
          canvases := canvases[c := canvases[c].(itemRids := ListRemove(canvases[c].itemRids, item))];
        }
      }
      r := Tree(canvases, items[item := d.(canvas := None)]);
    }
  }

  /** The steps of canvas_item_set_parent, lines 47-70, and whether they mark the canvas
      dirty. */
  method Reparent(t: Tree, item: int, parent: Option<int>) returns (r: Tree, marks: bool)
    ensures r == SetParentOf(t, item, parent)
    ensures marks == MarksDirty(t, item, parent)
  {
    if item !in t.items {
      return t, false;
    }
    r := Detach(t, item);
    if parent.None? {
      return r, true;
    }
    var p := parent.value;
    var items := r.items;
    if p in r.canvases {
      var canvas := r.canvases[p];
      r := Tree(r.canvases[p := canvas.(itemRids := canvas.itemRids + [item])],
                items[item := items[item].(canvas := Some(p), parent := None)]);
    } else {
      if p !in items {
        return r, false;
      }
      items := items[item := items[item].(parent := Some(p), canvas := items[p].canvas)];
      r := Tree(r.canvases, items[p := items[p].(children := items[p].children + [item])]);
    }
    marks := true;
  }

  // ------------------------------------------------------------- the render list
  /** CanvasRenderCommand, commands.py:11-16, without its transform. */
  datatype RenderCommand = RenderCommand(command: DrawCommand, z: int, modulate: Color)

  /** The commands collected, or the RecursionError the interpreter raises once calls
      nest deeper than its recursion limit. */
  datatype Drawing = Drawn(value: seq<RenderCommand>) | RecursionError

  /** The z an item draws at, line 259: its own z index, added to its parent's when it
      is relative. */
  function FinalZ(d: ItemData, parentZ: int): int {
    if d.zAsRelative then parentZ + d.zIndex else d.zIndex
  }

  /** Lines 263-271: one render command per draw command of the item, in order, all at
      the item's z and modulation. */
  function Rendered(cmds: seq<DrawCommand>, z: int, m: Color): (r: seq<RenderCommand>)
    ensures |r| == |cmds|
  {
    if |cmds| == 0 then [] else Rendered(cmds[..|cmds| - 1], z, m) + [RenderCommand(cmds[|cmds| - 1], z, m)]
  }

  /** Command k of the item becomes render command k. */
  lemma {:induction false} RenderedAt(cmds: seq<DrawCommand>, z: int, m: Color)
    ensures forall k :: 0 <= k < |cmds| ==> Rendered(cmds, z, m)[k] == RenderCommand(cmds[k], z, m)
  {
    if |cmds| > 0 {
      RenderedAt(cmds[..|cmds| - 1], z, m);
    }
  }

  /** _collect_item, lines 244-280, called with `depth` nested calls left before the
      interpreter's recursion limit: a missing or hidden item adds nothing; a visible one
      adds its own commands and then, in order, those of its children, which draw
      relative to its z and under its modulation. */
  function Collected(items: map<int, ItemData>, rid: int, z: int, m: Color, depth: nat): Drawing
    decreases depth, 0
  {
    if depth == 0 then RecursionError
    else if rid !in items || !items[rid].visible then Drawn([])
    else
      var d := items[rid];
      var fz := FinalZ(d, z);
      var fm := Modulated(m, d.modulate);
      match CollectedAll(items, d.children, fz, fm, depth - 1)
      case RecursionError => RecursionError
      case Drawn(rest) => Drawn(Rendered(d.commands, fz, fm) + rest)
  }

  /** _collect_item on each of the listed items in turn, stopping at the first that
      raises. */
  function CollectedAll(items: map<int, ItemData>, rids: seq<int>, z: int, m: Color, depth: nat): Drawing
    decreases depth, 1, |rids|
  {
    if |rids| == 0 then Drawn([])
    else
      match CollectedAll(items, rids[..|rids| - 1], z, m, depth)
      case RecursionError => RecursionError
      case Drawn(before) =>
        match Collected(items, rids[|rids| - 1], z, m, depth)
        case RecursionError => RecursionError
        case Drawn(last) => Drawn(before + last)
  }

  /** Once a prefix of the list raises, the whole list raises the same. */
  lemma {:induction false} CollectedAllStops(items: map<int, ItemData>, rids: seq<int>, n: nat, z: int, m: Color, depth: nat)
    requires n <= |rids| && CollectedAll(items, rids[..n], z, m, depth).RecursionError?
    ensures CollectedAll(items, rids, z, m, depth) == CollectedAll(items, rids[..n], z, m, depth)
    decreases |rids| - n
  {
    if n < |rids| {
      var init := rids[..|rids| - 1];
      assert init[..n] == rids[..n];
      CollectedAllStops(items, init, n, z, m, depth);
    } else {
      assert rids[..n] == rids;
    }
  }

  /** out.sort(key=z) on a sorted list, one element at a time: the element goes before
      the first element whose z is not below its own. */
  function InsertByZ(x: RenderCommand, s: seq<RenderCommand>): (r: seq<RenderCommand>)
    ensures multiset(r) == multiset(s) + multiset{x}
  {
    if |s| == 0 || x.z <= s[0].z then [x] + s
    else
      assert s == [s[0]] + s[1..];
      [s[0]] + InsertByZ(x, s[1..])
  }

  /** Inserting into a sorted list keeps it sorted. */
  lemma {:induction false} InsertSorted(x: RenderCommand, s: seq<RenderCommand>)
    requires SortedByZ(s)
    ensures SortedByZ(InsertByZ(x, s))
  {
    if |s| > 0 && x.z > s[0].z {
      var t := InsertByZ(x, s[1..]);
      InsertSorted(x, s[1..]);
      forall e | e in t
        ensures e.z >= s[0].z
      {
        assert e in multiset(t);
        if e != x {
          assert e in multiset(s[1..]);
        }
      }
      assert InsertByZ(x, s) == [s[0]] + t;
    }
  }

  /** Python's list.sort with a key is stable: the result is sorted by z and is a
      permutation of the input. */
  function SortByZ(s: seq<RenderCommand>): (r: seq<RenderCommand>)
    ensures multiset(r) == multiset(s)
    ensures SortedByZ(r)
  {
    if |s| == 0 then []
    else
      assert s == [s[0]] + s[1..];
      InsertSorted(s[0], SortByZ(s[1..]));
      InsertByZ(s[0], SortByZ(s[1..]))
  }

  predicate SortedByZ(s: seq<RenderCommand>) {
    forall i, j :: 0 <= i < j < |s| ==> s[i].z <= s[j].z
  }

  /** The commands of s at the given z, in their order in s. */
  function AtZ(s: seq<RenderCommand>, z: int): seq<RenderCommand> {
    if |s| == 0 then []
    else (if s[0].z == z then [s[0]] else []) + AtZ(s[1..], z)
  }

  lemma {:induction false} AtZAppend(a: seq<RenderCommand>, b: seq<RenderCommand>, z: int)
    ensures AtZ(a + b, z) == AtZ(a, z) + AtZ(b, z)
  {
    if |a| > 0 {
      assert (a + b)[1..] == a[1..] + b;
      AtZAppend(a[1..], b, z);
      var head := if a[0].z == z then [a[0]] else [];
      assert AtZ(a + b, z) == head + (AtZ(a[1..], z) + AtZ(b, z));
    } else {
      assert a + b == b;
    }
  }

  lemma AtZCons(x: RenderCommand, s: seq<RenderCommand>, z: int)
    ensures AtZ([x] + s, z) == (if x.z == z then [x] else []) + AtZ(s, z)
  {
    assert ([x] + s)[1..] == s;
  }

  /** Inserting keeps the new element ahead of every element of its own z. */
  lemma {:induction false} InsertStable(x: RenderCommand, s: seq<RenderCommand>, z: int)
    ensures AtZ(InsertByZ(x, s), z) == AtZ([x] + s, z)
  {
    if |s| > 0 && x.z > s[0].z {
      var t := s[1..];
      assert s == [s[0]] + t;
      InsertStable(x, t, z);
      AtZCons(s[0], InsertByZ(x, t), z);
      AtZCons(x, t, z);
      AtZCons(x, s, z);
      AtZCons(s[0], t, z);
      var h0 := if s[0].z == z then [s[0]] else [];
      var hx := if x.z == z then [x] else [];
      assert h0 + hx == hx + h0;
      assert AtZ(InsertByZ(x, s), z) == h0 + (hx + AtZ(t, z));
      assert AtZ([x] + s, z) == hx + (h0 + AtZ(t, z));
    }
  }

  /** The sort is stable: commands of equal z keep their order. */
  lemma {:induction false} SortStable(s: seq<RenderCommand>, z: int)
    ensures AtZ(SortByZ(s), z) == AtZ(s, z)
  {
    if |s| > 0 {
      SortStable(s[1..], z);
      InsertStable(s[0], SortByZ(s[1..]), z);
      AtZCons(s[0], SortByZ(s[1..]), z);
      AtZCons(s[0], s[1..], z);
      assert s == [s[0]] + s[1..];
    }
  }

  /** build_render_list, lines 226-242: no commands for an unknown canvas; otherwise the
      commands of the canvas's roots in order, each root drawn at z 0 under white, and
      then stably sorted by z. */
  function RenderListOf(t: Tree, canvas: int, limit: nat): (r: Drawing)
  {
    if canvas !in t.canvases then Drawn([])
    else
      match CollectedAll(t.items, t.canvases[canvas].itemRids, 0, White, limit)
      case RecursionError => RecursionError
      case Drawn(out) => Drawn(SortByZ(out))
  }

  /** The render list is the collected commands sorted by z, stably, and nothing more
      or less. */
  lemma RenderListMeaning(t: Tree, canvas: int, limit: nat)
    requires canvas in t.canvases
    requires CollectedAll(t.items, t.canvases[canvas].itemRids, 0, White, limit).Drawn?
    ensures var out := CollectedAll(t.items, t.canvases[canvas].itemRids, 0, White, limit).value;
            var r := RenderListOf(t, canvas, limit);
            r.Drawn? && SortedByZ(r.value) && multiset(r.value) == multiset(out)
            && forall z :: AtZ(r.value, z) == AtZ(out, z)
  {
    var out := CollectedAll(t.items, t.canvases[canvas].itemRids, 0, White, limit).value;
    forall z
      ensures AtZ(SortByZ(out), z) == AtZ(out, z)
    {
      SortStable(out, z);
    }
  }

  /** The commands with their z raised by k. */
  function Shift(s: seq<RenderCommand>, k: int): (r: seq<RenderCommand>)
    ensures |r| == |s|
  {
    if |s| == 0 then [] else [s[0].(z := s[0].z + k)] + Shift(s[1..], k)
  }

  lemma {:induction false} ShiftAt(s: seq<RenderCommand>, k: int)
    ensures forall i :: 0 <= i < |s| ==> Shift(s, k)[i] == s[i].(z := s[i].z + k)
  {
    if |s| > 0 {
      ShiftAt(s[1..], k);
    }
  }

  function ShiftedBy(o: Drawing, k: int): Drawing {
    match o
    case RecursionError => o
    case Drawn(s) => Drawn(Shift(s, k))
  }

  lemma ShiftAppend(a: seq<RenderCommand>, b: seq<RenderCommand>, k: int)
    ensures Shift(a + b, k) == Shift(a, k) + Shift(b, k)
  {
    ShiftAt(a + b, k);
    ShiftAt(a, k);
    ShiftAt(b, k);
    assert forall i :: 0 <= i < |a| + |b| ==> Shift(a + b, k)[i] == (Shift(a, k) + Shift(b, k))[i];
  }

  lemma ShiftRendered(cmds: seq<DrawCommand>, z: int, m: Color, k: int)
    ensures Shift(Rendered(cmds, z, m), k) == Rendered(cmds, z + k, m)
  {
    ShiftAt(Rendered(cmds, z, m), k);
    RenderedAt(cmds, z, m);
    RenderedAt(cmds, z + k, m);
    assert forall i :: 0 <= i < |cmds| ==> Shift(Rendered(cmds, z, m), k)[i] == Rendered(cmds, z + k, m)[i];
  }

  /** No item draws at an absolute z. */
  predicate AllRelative(items: map<int, ItemData>) {
    forall q :: q in items ==> items[q].zAsRelative
  }

  /** Where every z is relative, drawing a subtree from z' instead of z raises the z of
      every command it yields by z' - z, and changes nothing else. */
  lemma {:induction false} CollectedShift(items: map<int, ItemData>, rid: int, z: int, z': int, m: Color, depth: nat)
    requires AllRelative(items)
    ensures Collected(items, rid, z', m, depth) == ShiftedBy(Collected(items, rid, z, m, depth), z' - z)
    decreases depth, 0
  {
    if depth > 0 && rid in items && items[rid].visible {
      var d := items[rid];
      var fz, fz', fm := FinalZ(d, z), FinalZ(d, z'), Modulated(m, d.modulate);
      CollectedAllShift(items, d.children, fz, fz', fm, depth - 1);
      var below := CollectedAll(items, d.children, fz, fm, depth - 1);
      if below.Drawn? {
        var own := Rendered(d.commands, fz, fm);
        ShiftAppend(own, below.value, z' - z);
        ShiftRendered(d.commands, fz, fm, z' - z);
        assert fz' == fz + (z' - z);
      }
    }
  }

  lemma {:induction false} CollectedAllShift(items: map<int, ItemData>, rids: seq<int>, z: int, z': int, m: Color, depth: nat)
    requires AllRelative(items)
    ensures CollectedAll(items, rids, z', m, depth) == ShiftedBy(CollectedAll(items, rids, z, m, depth), z' - z)
    decreases depth, 1, |rids|
  {
    if |rids| > 0 {
      var init := rids[..|rids| - 1];
      CollectedAllShift(items, init, z, z', m, depth);
      CollectedShift(items, rids[|rids| - 1], z, z', m, depth);
      match CollectedAll(items, init, z, m, depth)
      case RecursionError =>
      case Drawn(before) =>
        match Collected(items, rids[|rids| - 1], z, m, depth)
        case RecursionError =>
        case Drawn(last) =>
          ShiftAppend(before, last, z' - z);
    }
  }

  /** Every command collected is a draw command of a visible item. */
  ghost predicate FromVisible(items: map<int, ItemData>, out: seq<RenderCommand>) {
    forall c :: c in out ==> exists q :: q in items && items[q].visible && c.command in items[q].commands
  }

  lemma {:induction false} CollectedFromVisible(items: map<int, ItemData>, rid: int, z: int, m: Color, depth: nat)
    requires Collected(items, rid, z, m, depth).Drawn?
    ensures FromVisible(items, Collected(items, rid, z, m, depth).value)
    decreases depth, 0
  {
    if depth > 0 && rid in items && items[rid].visible {
      var d := items[rid];
      var fz, fm := FinalZ(d, z), Modulated(m, d.modulate);
      CollectedAllFromVisible(items, d.children, fz, fm, depth - 1);
      var own := Rendered(d.commands, fz, fm);
      RenderedAt(d.commands, fz, fm);
      forall c | c in own
        ensures c.command in d.commands
      {
        var i :| 0 <= i < |own| && own[i] == c;
        assert c.command == d.commands[i];
      }
    }
  }

  lemma {:induction false} CollectedAllFromVisible(items: map<int, ItemData>, rids: seq<int>, z: int, m: Color, depth: nat)
    requires CollectedAll(items, rids, z, m, depth).Drawn?
    ensures FromVisible(items, CollectedAll(items, rids, z, m, depth).value)
    decreases depth, 1, |rids|
  {
    if |rids| > 0 {
      CollectedAllFromVisible(items, rids[..|rids| - 1], z, m, depth);
      CollectedFromVisible(items, rids[|rids| - 1], z, m, depth);
    }
  }

  /** The loop of lines 263-271. */
  method RenderItem(cmds: seq<DrawCommand>, z: int, m: Color) returns (out: seq<RenderCommand>)
    ensures out == Rendered(cmds, z, m)
  {
    out := [];
    for i := 0 to |cmds|
      invariant out == Rendered(cmds[..i], z, m)
    {
      assert cmds[..i + 1][..i] == cmds[..i];
      out := out + [RenderCommand(cmds[i], z, m)];
    }
    assert cmds[..|cmds|] == cmds;
  }

  /** _collect_item, lines 244-280. */
  method CollectItem(items: map<int, ItemData>, rid: int, z: int, m: Color, depth: nat) returns (r: Drawing)
    ensures r == Collected(items, rid, z, m, depth)
    decreases depth, 0
  {
    if depth == 0 {
      return RecursionError;
    }
    if rid !in items || !items[rid].visible {
      return Drawn([]);
    }
    var d := items[rid];
    var fz := FinalZ(d, z);
    var fm := Modulated(m, d.modulate);
    var own := RenderItem(d.commands, fz, fm);
    var rest := CollectEach(items, d.children, fz, fm, depth - 1);
    match rest
    case RecursionError =>
      return RecursionError;
    case Drawn(more) =>
      return Drawn(own + more);
  }

  /** The loops of lines 233-240 and 273-280: _collect_item on each listed item in
      turn; an exception ends the loop. */
  method CollectEach(items: map<int, ItemData>, rids: seq<int>, z: int, m: Color, depth: nat) returns (r: Drawing)
    ensures r == CollectedAll(items, rids, z, m, depth)
    decreases depth, 1
  {
    var out := [];
    for i := 0 to |rids|
      invariant CollectedAll(items, rids[..i], z, m, depth) == Drawn(out)
    {
      assert rids[..i + 1][..i] == rids[..i];
      var c := CollectItem(items, rids[i], z, m, depth);
      if c.RecursionError? {
        CollectedAllStops(items, rids, i + 1, z, m, depth);
        return RecursionError;
      }
      out := out + c.value;
    }
    assert rids[..|rids|] == rids;
    return Drawn(out);
  }

  // ------------------------------------------------------------- item setters
  /** A hidden item draws nothing, its subtree included. */
  lemma HiddenDrawsNothing(items: map<int, ItemData>, rid: int, z: int, m: Color, depth: nat)
    requires rid in items && depth > 0
    ensures Collected(items[rid := items[rid].(visible := false)], rid, z, m, depth) == Drawn([])
  {
  }

  /** With modulate_rgba set as intended, a visible item drawn as a root renders its own
      commands, first and in order, in exactly that colour. */
  lemma ModulateReachesRender(items: map<int, ItemData>, rid: int, c: Color, depth: nat)
    requires rid in items && items[rid].visible && depth > 0
    requires Collected(items[rid := items[rid].(modulate := c)], rid, 0, White, depth).Drawn?
    ensures var out := Collected(items[rid := items[rid].(modulate := c)], rid, 0, White, depth).value;
            |out| >= |items[rid].commands|
            && forall k :: 0 <= k < |items[rid].commands| ==> out[k].command == items[rid].commands[k] && out[k].modulate == c
  {
    var d := items[rid].(modulate := c);
    WhiteModulates(c);
    RenderedAt(d.commands, FinalZ(d, 0), c);
  }

  /** As written, setting the modulate of an item leaves its record as it was (see
      CanvasServer.SetModulateAsWritten), so an item still at its initial white draws
      its first command in exactly its parent's modulation, whatever colour it was set
      to. */
  lemma ModulateAsWrittenIgnored(items: map<int, ItemData>, rid: int, z: int, m: Color, depth: nat)
    requires rid in items && items[rid].visible && items[rid].modulate == White && |items[rid].commands| > 0
    requires Collected(items, rid, z, m, depth).Drawn? && depth > 0
    ensures |Collected(items, rid, z, m, depth).value| > 0
    ensures Collected(items, rid, z, m, depth).value[0].modulate == m
  {
    var d := items[rid];
    WhiteModulates(m);
    RenderedAt(d.commands, FinalZ(d, z), m);
  }

  // ------------------------------------------------------------- the server
  /** CanvasServer, server.py:17-280: the canvas storage and the calls that re-parent
      items and build render lists. */
  class CanvasServer {
    const storage: CanvasStorage

    constructor(dirty: bool)
      ensures fresh(storage) && storage.Valid()
      ensures storage.canvases == map[] && storage.items == map[] && storage.layers == map[]
      ensures storage.nextRid == 1 && storage.canvasDirty == dirty
    {
      storage := new CanvasStorage(dirty);
    }

    /** canvas_item_set_parent, lines 42-70. */
    method SetParent(item: int, parent: Option<int>)
      requires storage.Valid()
      modifies storage
      ensures storage.Valid()
      ensures storage.Snapshot() == SetParentOf(old(storage.Snapshot()), item, parent)
      ensures storage.layers == old(storage.layers) && storage.nextRid == old(storage.nextRid)
      ensures storage.canvasDirty == (old(storage.canvasDirty) || MarksDirty(old(storage.Snapshot()), item, parent))
    {
      var r, marks := Reparent(storage.Snapshot(), item, parent);
      storage.canvases, storage.items := r.canvases, r.items;
      if marks {
        storage.canvasDirty := true;
      }
    }

    /** canvas_item_set_visible, lines 92-97. */
    method SetVisible(item: int, visible: bool)
      requires storage.Valid()
      modifies storage
      ensures storage.Valid()
      ensures item in old(storage.items) ==> storage.items == old(storage.items)[item := old(storage.items)[item].(visible := visible)]
      ensures item !in old(storage.items) ==> storage.items == old(storage.items)
      ensures storage.canvases == old(storage.canvases) && storage.layers == old(storage.layers) && storage.nextRid == old(storage.nextRid)
      ensures storage.canvasDirty == (old(storage.canvasDirty) || item in old(storage.items))
    {
      if item in storage.items {
        storage.items := storage.items[item := storage.items[item].(visible := visible)];
        storage.canvasDirty := true;
      }
    }

    /** canvas_item_set_z_index, lines 99-104. */
    method SetZIndex(item: int, zIndex: int)
      requires storage.Valid()
      modifies storage
      ensures storage.Valid()
      ensures item in old(storage.items) ==> storage.items == old(storage.items)[item := old(storage.items)[item].(zIndex := zIndex)]
      ensures item !in old(storage.items) ==> storage.items == old(storage.items)
      ensures storage.canvases == old(storage.canvases) && storage.layers == old(storage.layers) && storage.nextRid == old(storage.nextRid)
      ensures storage.canvasDirty == (old(storage.canvasDirty) || item in old(storage.items))
    {
      if item in storage.items {
        storage.items := storage.items[item := storage.items[item].(zIndex := zIndex)];
        storage.canvasDirty := true;
      }
    }

    /** canvas_item_set_z_as_relative, lines 106-111. */
    method SetZAsRelative(item: int, relative: bool)
      requires storage.Valid()
      modifies storage
      ensures storage.Valid()
      ensures item in old(storage.items) ==> storage.items == old(storage.items)[item := old(storage.items)[item].(zAsRelative := relative)]
      ensures item !in old(storage.items) ==> storage.items == old(storage.items)
      ensures storage.canvases == old(storage.canvases) && storage.layers == old(storage.layers) && storage.nextRid == old(storage.nextRid)
      ensures storage.canvasDirty == (old(storage.canvasDirty) || item in old(storage.items))
    {
      if item in storage.items {
        storage.items := storage.items[item := storage.items[item].(zAsRelative := relative)];
        storage.canvasDirty := true;
      }
    }

    /** canvas_item_set_modulate, lines 113-121, as written: the four channels go to
        attributes named modulate_r, modulate_g, modulate_b and modulate_a, which nothing
        reads; the modulate_rgba the render list uses is left as it was. */
    method SetModulateAsWritten(item: int, r: real, g: real, b: real, a: real)
      requires storage.Valid()
      modifies storage
      ensures storage.Valid()
      ensures storage.Snapshot() == old(storage.Snapshot())
      ensures storage.layers == old(storage.layers) && storage.nextRid == old(storage.nextRid)
      ensures storage.canvasDirty == (old(storage.canvasDirty) || item in old(storage.items))
    {
      if item in storage.items {
        storage.canvasDirty := true;
      }
    }

    /** canvas_item_set_modulate as intended: the item's modulate_rgba becomes the given
        colour. */
    method SetModulate(item: int, r: real, g: real, b: real, a: real)
      requires storage.Valid()
      modifies storage
      ensures storage.Valid()
      ensures item in old(storage.items) ==> storage.items == old(storage.items)[item := old(storage.items)[item].(modulate := Color(r, g, b, a))]
      ensures item !in old(storage.items) ==> storage.items == old(storage.items)
      ensures storage.canvases == old(storage.canvases) && storage.layers == old(storage.layers) && storage.nextRid == old(storage.nextRid)
      ensures storage.canvasDirty == (old(storage.canvasDirty) || item in old(storage.items))
    {
      if item in storage.items {
        storage.items := storage.items[item := storage.items[item].(modulate := Color(r, g, b, a))];
        storage.canvasDirty := true;
      }
    }

    /** canvas_item_add_rect, lines 140-155: appends a command and leaves the dirty flag
        alone. */
    method AddRect(item: int, x: real, y: real, w: real, h: real, color: Color, filled: bool, borderWidth: real)
      requires storage.Valid()
      modifies storage
      ensures storage.Valid()
      ensures item in old(storage.items) ==> storage.items == old(storage.items)[item := old(storage.items)[item].(commands := old(storage.items)[item].commands + [DrawRect(x, y, w, h, color, filled, borderWidth)])]
      ensures item !in old(storage.items) ==> storage.items == old(storage.items)
      ensures storage.canvases == old(storage.canvases) && storage.layers == old(storage.layers) && storage.nextRid == old(storage.nextRid)
      ensures storage.canvasDirty == old(storage.canvasDirty)
    {
      if item in storage.items {
        var d := storage.items[item];
        storage.items := storage.items[item := d.(commands := d.commands + [DrawRect(x, y, w, h, color, filled, borderWidth)])];
      }
    }

    /** canvas_item_add_texture_rect, lines 157-192: appends a command and leaves the
        dirty flag alone. */
    method AddTextureRect(item: int, cmd: DrawCommand)
      requires storage.Valid() && cmd.DrawTextureRect?
      modifies storage
      ensures storage.Valid()
      ensures item in old(storage.items) ==> storage.items == old(storage.items)[item := old(storage.items)[item].(commands := old(storage.items)[item].commands + [cmd])]
      ensures item !in old(storage.items) ==> storage.items == old(storage.items)
      ensures storage.canvases == old(storage.canvases) && storage.layers == old(storage.layers) && storage.nextRid == old(storage.nextRid)
      ensures storage.canvasDirty == old(storage.canvasDirty)
    {
      if item in storage.items {
        var d := storage.items[item];
        storage.items := storage.items[item := d.(commands := d.commands + [cmd])];
      }
    }

    /** canvas_item_clear_commands, lines 194-197. */
    method ClearCommands(item: int)
      requires storage.Valid()
      modifies storage
      ensures storage.Valid()
      ensures item in old(storage.items) ==> storage.items == old(storage.items)[item := old(storage.items)[item].(commands := [])]
      ensures item !in old(storage.items) ==> storage.items == old(storage.items)
      ensures storage.canvases == old(storage.canvases) && storage.layers == old(storage.layers) && storage.nextRid == old(storage.nextRid)
      ensures storage.canvasDirty == old(storage.canvasDirty)
    {
      if item in storage.items {
        storage.items := storage.items[item := storage.items[item].(commands := [])];
      }
    }

    /** canvas_layer_set_canvas, lines 205-210: any id is accepted as the canvas. */
    method LayerSetCanvas(layer: int, canvas: Option<int>)
      requires storage.Valid()
      modifies storage
      ensures storage.Valid()
      ensures storage.layers == if layer in old(storage.layers) then old(storage.layers)[layer := old(storage.layers)[layer].(canvas := canvas)] else old(storage.layers)
      ensures storage.Snapshot() == old(storage.Snapshot()) && storage.nextRid == old(storage.nextRid)
      ensures storage.canvasDirty == (old(storage.canvasDirty) || layer in old(storage.layers))
    {
      if layer in storage.layers {
        storage.layers := storage.layers[layer := storage.layers[layer].(canvas := canvas)];
        storage.canvasDirty := true;
      }
    }

    /** canvas_layer_set_order, lines 212-217. */
    method LayerSetOrder(layer: int, order: int)
      requires storage.Valid()
      modifies storage
      ensures storage.Valid()
      ensures storage.layers == if layer in old(storage.layers) then old(storage.layers)[layer := old(storage.layers)[layer].(order := order)] else old(storage.layers)
      ensures storage.Snapshot() == old(storage.Snapshot()) && storage.nextRid == old(storage.nextRid)
      ensures storage.canvasDirty == (old(storage.canvasDirty) || layer in old(storage.layers))
    {
      if layer in storage.layers {
        storage.layers := storage.layers[layer := storage.layers[layer].(order := order)];
        storage.canvasDirty := true;
      }
    }

    /** build_render_list, lines 226-242, with `limit` nested calls of _collect_item
        allowed before the interpreter raises RecursionError. */
    method BuildRenderList(canvas: int, limit: nat) returns (r: Drawing)
      ensures r == RenderListOf(storage.Snapshot(), canvas, limit)
    {
      if canvas !in storage.canvases {
        return Drawn([]);
      }
      var collected := CollectEach(storage.items, storage.canvases[canvas].itemRids, 0, White, limit);
      match collected
      case RecursionError =>
        return RecursionError;
      case Drawn(out) =>
        return Drawn(SortByZ(out));
    }
  }
}
