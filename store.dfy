/** A MongoDB collection as the route handlers use it: documents in insertion order,
    each with the `_id` and `createdAt` the driver gave it. The `_id` and the time of
    a new document come in as a `Stamp`: the driver and the clock are not modelled. */
module Store {
  import opened Common
  import opened Lists

  type Id = string

  /** A stored document. */
  datatype Row<D> = Row(id: Id, createdAt: int, doc: D)

  /** The `_id` and creation time the driver assigns to the next insert. */
  datatype Stamp = Stamp(id: Id, at: int)

  /** `Model.findOne()` with no filter: the first document in natural order. */
  function First<D>(rows: seq<Row<D>>): (r: Option<Row<D>>)
    ensures r.None? <==> rows == []
    ensures r.Some? ==> r.value in rows
  {
    if rows == [] then None else Some(rows[0])
  }

  /** `rows.find(r => r._id === id)` */
  function Find<D>(rows: seq<Row<D>>, id: Id): (r: Option<Row<D>>)
    ensures r.None? <==> forall i :: 0 <= i < |rows| ==> rows[i].id != id
    ensures r.Some? ==> r.value.id == id
    ensures r.Some? ==> exists i :: 0 <= i < |rows| && rows[i] == r.value && (forall j :: 0 <= j < i ==> rows[j].id != id)
  {
    var k := FindIndex(rows, (r: Row<D>) => r.id == id);
    if k == -1 then None else Some(rows[k])
  }

  /** The rows after the document with id `id` is given the contents `doc`. */
  function Replace<D>(rows: seq<Row<D>>, id: Id, doc: D): (r: seq<Row<D>>)
    ensures |r| == |rows|
    ensures forall i :: 0 <= i < |rows| ==> r[i].id == rows[i].id && r[i].createdAt == rows[i].createdAt
    ensures forall i :: 0 <= i < |rows| ==> r[i].doc == (if rows[i].id == id then doc else rows[i].doc)
  {
    seq(|rows|, i requires 0 <= i < |rows| => if rows[i].id == id then rows[i].(doc := doc) else rows[i])
  }

  /** The documents of one collection. */
  class Table<D> {
    var rows: seq<Row<D>>

    constructor ()
      ensures rows == []
    {
      rows := [];
    }

    /** `Model.findOne()` */
    method FindOne() returns (r: Option<Row<D>>)
      ensures r == First(rows)
    {
      if rows == [] {
        r := None;
      } else {
        r := Some(rows[0]);
      }
    }

    /** `Model.countDocuments()` */
    method Count() returns (n: nat)
      ensures n == |rows|
    {
      n := |rows|;
    }

    /** `Model.create(doc)` once the document has passed validation. */
    method Insert(doc: D, stamp: Stamp) returns (row: Row<D>)
      modifies this
      ensures row == Row(stamp.id, stamp.at, doc)
      ensures rows == old(rows) + [row]
    {
      row := Row(stamp.id, stamp.at, doc);
      rows := rows + [row];
    }

    /** Writes `doc` as the new contents of the document with id `id`. */
    method Save(id: Id, doc: D)
      modifies this
      ensures rows == Replace(old(rows), id, doc)
    {
      rows := Replace(rows, id, doc);
    }
  }
}
