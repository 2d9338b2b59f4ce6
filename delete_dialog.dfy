/** What the two admin list pages share: the confirmation dialog of a delete, the
    lookup of the entry it names, and the list left after a delete. */
module DeleteDialog {
  import opened Common
  import opened Lists
  import opened Store

  /** `confirmDialog`: whether it is shown, the id it would delete and the name it shows. */
  datatype Dialog = Dialog(isOpen: bool, target: Option<Id>, name: string)

  /** `{ isOpen: false, <id>: null, <name>: '' }` */
  function Closed(): Dialog {
    Dialog(false, None, "")
  }

  /** `const id = confirmDialog.<id>; if (!id) return;`: the id to delete, if any; an
      empty id is falsy and counts as none. */
  function Pending(d: Dialog): (r: Option<Id>)
    ensures r.Some? <==> d.target.Some? && d.target.value != ""
    ensures r.Some? ==> r == d.target
  {
    if d.target.Some? && d.target.value != "" then d.target else None
  }

  function HasId<D>(id: Id): Row<D> -> bool {
    (r: Row<D>) => r.id == id
  }

  function OtherId<D>(id: Id): Row<D> -> bool {
    (r: Row<D>) => r.id != id
  }

  /** `rows.filter(r => r._id !== id)` */
  function Without<D>(rows: seq<Row<D>>, id: Id): seq<Row<D>> {
    Lists.Filter(rows, OtherId(id))
  }

  /** A delete removes exactly the entries with that id: none is left, every other
      entry stays, and the list shortens by the number removed, keeping its order. */
  lemma WithoutIff<D>(rows: seq<Row<D>>, id: Id, extra: seq<Row<D>>)
    ensures forall k :: 0 <= k < |Without(rows, id)| ==> Without(rows, id)[k].id != id && Without(rows, id)[k] in rows
    ensures forall k :: 0 <= k < |rows| && rows[k].id != id ==> rows[k] in Without(rows, id)
    ensures |Without(rows, id)| + |Lists.Filter(rows, HasId(id))| == |rows|
    ensures Without(rows + extra, id) == Without(rows, id) + Without(extra, id)
    ensures (forall k :: 0 <= k < |rows| ==> rows[k].id != id) ==> Without(rows, id) == rows
  {
    var keep := OtherId<D>(id);
    FilterPartition(rows, keep);
    FilterSame(rows, x => !keep(x), HasId(id));
    FilterAppend(rows, extra, keep);
    if forall k :: 0 <= k < |rows| ==> rows[k].id != id {
      FilterAll(rows, keep);
    }
  }
}
