// engine/servers/physics/storage/shape.py: the shape table of the physics server.
// A record holds the shape kind and its parameter dictionary (None until set).
module ShapeStore {
  import opened Wrappers
  import opened Shapes
  import opened Bodies

  /** ShapeStorage.ShapeData. */
  datatype ShapeRecord = ShapeRecord(kind: ShapeType, data: ShapeData)

  /** The `_next_*_id` counter a storage draws its ids from. */
  class RidCounter {
    var next: nat

    constructor()
      ensures next == 1
    {
      next := 1;
    }

    /** `rid._assign(self._next_id); self._next_id += 1`. */
    method Take() returns (id: Rid)
      modifies this
      ensures id == old(next) && next == old(next) + 1
    {
      id := next;
      next := next + 1;
    }
  }

  class ShapeStorage {
    var shapes: map<Rid, ShapeRecord>
    const ids: RidCounter

    constructor(ids: RidCounter)
      ensures shapes == map[] && this.ids == ids
    {
      shapes := map[];
      this.ids := ids;
    }

    /** shape_create: a fresh id from the counter and a record with no data. */
    method ShapeCreate(kind: ShapeType) returns (rid: Rid)
      modifies this, ids
      ensures rid == old(ids.next) && ids.next == rid + 1
      ensures shapes == old(shapes)[rid := ShapeRecord(kind, None)]
      ensures ShapeGetData(rid) == None && ShapeGetType(rid) == Ok(kind)
    {
      rid := ids.Take();
      shapes := shapes[rid := ShapeRecord(kind, None)];
    }

    /** shape_set_data: replaces the data of a known shape; unknown shapes are ignored. */
    method ShapeSetData(shape: Rid, data: ShapeData)
      modifies this
      ensures shape in old(shapes) ==> shapes == old(shapes)[shape := old(shapes)[shape].(data := data)]
      ensures shape !in old(shapes) ==> shapes == old(shapes)
      ensures ShapeGetData(shape) == (if shape in old(shapes) then data else None)
    {
      if shape in shapes {
        shapes := shapes[shape := shapes[shape].(data := data)];
      }
    }

    /** shape_get_data: the data, or None for an unknown shape. */
    function ShapeGetData(shape: Rid): (d: ShapeData)
      reads this
      ensures shape !in shapes ==> d.None?
      ensures d.Some? ==> shape in shapes && shapes[shape].data == d
    {
      if shape in shapes then shapes[shape].data else None
    }

    /** shape_get_type: indexing the table raises KeyError for an unknown shape. */
    function ShapeGetType(shape: Rid): (t: Outcome<ShapeType>)
      reads this
      ensures t.Raised? <==> shape !in shapes
      ensures t.Raised? ==> t.exc == KeyError
      ensures t.Ok? ==> t.value == shapes[shape].kind
    {
      if shape in shapes then Ok(shapes[shape].kind) else Raised(KeyError)
    }

    /** _free_shape: drops a known shape; an unknown one is ignored. */
    method FreeShape(shape: Rid)
      modifies this
      ensures shapes == old(shapes) - {shape}
      ensures GetShapeData(shape) == None
    {
      if shape in shapes {
        shapes := map k | k in shapes && k != shape :: shapes[k];
      }
    }

    /** _get_shape_data: the record, or None. */
    function GetShapeData(shape: Rid): (r: Option<ShapeRecord>)
      reads this
      ensures r.Some? <==> shape in shapes
      ensures r.Some? ==> r.value == shapes[shape]
    {
      if shape in shapes then Some(shapes[shape]) else None
    }
  }
}
