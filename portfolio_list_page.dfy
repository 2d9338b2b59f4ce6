/** app/admin/portfolio/page.tsx: the administrator's gallery list, where an image is
    deleted after a confirmation dialog. */
module PortfolioListPage {
  import opened Common
  import opened Store
  import opened PortfolioModel
  import opened DeleteDialog

  /** `image?.title || image?.imageUrl || 'this image'` */
  function ImageName(images: seq<Row<Portfolio>>, id: Id): (name: string)
    ensures Find(images, id).None? ==> name == "this image"
    ensures Find(images, id).Some? && Truthy(Find(images, id).value.doc.title) ==> name == Find(images, id).value.doc.title.value
    ensures Find(images, id).Some? && !Truthy(Find(images, id).value.doc.title) ==>
      name == TextOr(Find(images, id).value.doc.imageUrl, "this image")
    ensures name != ""
  {
    match Find(images, id)
    case None => "this image"
    case Some(image) => TextOr(image.doc.title, TextOr(image.doc.imageUrl, "this image"))
  }

  const DeleteRejected := "Failed to delete image"
  const DeleteError := "Error deleting image"

  /** The alert a delete ends with: none after a success. */
  function Alert(reply: Result<bool>): (r: seq<string>)
    ensures r == [] <==> reply == Ok(true)
  {
    match reply
    case Ok(true) => []
    case Ok(false) => [DeleteRejected]
    case Err(_) => [DeleteError]
  }

  class Page {
    var images: seq<Row<Portfolio>>
    var dialog: Dialog
    var deletingId: Option<Id>
    /** The alerts shown, oldest first. */
    var alerts: seq<string>

    constructor ()
      ensures images == [] && dialog == Closed() && deletingId == None && alerts == []
    {
      images := [];
      dialog := Closed();
      deletingId := None;
      alerts := [];
    }

    /** `fetchPortfolio`: the list is replaced only by a successful reply. */
    method Load(reply: Result<Body<seq<Row<Portfolio>>>>)
      modifies this
      ensures images == (if reply.Ok? && reply.value.Success? then reply.value.data else old(images))
      ensures dialog == old(dialog) && deletingId == old(deletingId) && alerts == old(alerts)
    {
      if reply.Ok? && reply.value.Success? {
        images := reply.value.data;
      }
    }

    /** `handleDelete(id)`: opens the dialog for that image. */
    method HandleDelete(id: Id)
      modifies this
      ensures dialog == Dialog(true, Some(id), ImageName(images, id))
      ensures images == old(images) && deletingId == old(deletingId) && alerts == old(alerts)
    {
      dialog := Dialog(true, Some(id), ImageName(images, id));
    }

    /** The first steps of `confirmDelete`: nothing without a pending id; otherwise the
        dialog is closed and reset and the image is marked as being deleted, before
        any request is made. */
    method BeginDelete() returns (id: Option<Id>)
      modifies this
      ensures id == Pending(old(dialog))
      ensures id.None? ==> dialog == old(dialog) && deletingId == old(deletingId)
      ensures id.Some? ==> dialog == Closed() && deletingId == id
      ensures images == old(images) && alerts == old(alerts)
    {
      id := Pending(dialog);
      if id.None? {
        return;
      }
      dialog := Closed();
      deletingId := id;
    }

    /** The rest of `confirmDelete`, given the `success` flag of the DELETE or what it
        threw: only a success removes the image; `deletingId` is cleared in every case. */
    method FinishDelete(id: Id, reply: Result<bool>)
      modifies this
      ensures images == (if reply == Ok(true) then Without(old(images), id) else old(images))
      ensures alerts == old(alerts) + Alert(reply)
      ensures deletingId == None && dialog == old(dialog)
    {
      match reply {
        case Ok(true) =>
          images := Without(images, id);
        case Ok(false) =>
          alerts := alerts + Alert(reply);
        case Err(_) =>
          alerts := alerts + Alert(reply);
      }
      deletingId := None;
    }

    /** `confirmDelete`. */
    method ConfirmDelete(reply: Result<bool>)
      modifies this
      ensures Pending(old(dialog)).None? ==>
        images == old(images) && dialog == old(dialog) && deletingId == old(deletingId) && alerts == old(alerts)
      ensures Pending(old(dialog)).Some? ==>
        dialog == Closed() && deletingId == None
        && images == (if reply == Ok(true) then Without(old(images), Pending(old(dialog)).value) else old(images))
        && alerts == old(alerts) + Alert(reply)
    {
      var id := BeginDelete();
      if id.Some? {
        FinishDelete(id.value, reply);
      }
    }
  }

  /** Opening the dialog for an image and confirming deletes exactly the images with
      that id when the server agrees, and nothing otherwise. */
  method OpenThenConfirm(p: Page, id: Id, reply: Result<bool>)
    requires id != ""
    modifies p
    ensures p.dialog == Closed() && p.deletingId == None
    ensures p.images == (if reply == Ok(true) then Without(old(p.images), id) else old(p.images))
  {
    p.HandleDelete(id);
    p.ConfirmDelete(reply);
  }
}
