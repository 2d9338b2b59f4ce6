/** app/admin/services/page.tsx: the administrator's list of services, where a service
    is deleted after a confirmation dialog. */
module ServicesListPage {
  import opened Common
  import opened Store
  import opened ServiceModel
  import opened DeleteDialog

  /** `service?.name || 'this service'` */
  function ServiceName(services: seq<Row<Service>>, id: Id): (name: string)
    ensures Find(services, id).None? ==> name == "this service"
    ensures Find(services, id).Some? ==> name == TextOr(Find(services, id).value.doc.name, "this service")
    ensures name != ""
  {
    match Find(services, id)
    case None => "this service"
    case Some(service) => TextOr(service.doc.name, "this service")
  }

  /** The alert a delete ends with, given `response.ok` or what `fetch` threw: none
      after a success. */
  function Alert(reply: Result<bool>): (r: seq<string>)
    ensures r == [] <==> reply == Ok(true)
  {
    match reply
    case Ok(true) => []
    case Ok(false) => ["Failed to delete service"]
    case Err(_) => ["An error occurred"]
  }

  class Page {
    var services: seq<Row<Service>>
    var dialog: Dialog
    /** The alerts shown, oldest first. */
    var alerts: seq<string>

    constructor ()
      ensures services == [] && dialog == Closed() && alerts == []
    {
      services := [];
      dialog := Closed();
      alerts := [];
    }

    /** `fetchServices`: the list is replaced only by a successful reply. */
    method Load(reply: Result<Body<seq<Row<Service>>>>)
      modifies this
      ensures services == (if reply.Ok? && reply.value.Success? then reply.value.data else old(services))
      ensures dialog == old(dialog) && alerts == old(alerts)
    {
      if reply.Ok? && reply.value.Success? {
        services := reply.value.data;
      }
    }

    /** `handleDelete(id)`: opens the dialog for that service. */
    method HandleDelete(id: Id)
      modifies this
      ensures dialog == Dialog(true, Some(id), ServiceName(services, id))
      ensures services == old(services) && alerts == old(alerts)
    {
      dialog := Dialog(true, Some(id), ServiceName(services, id));
    }

    /** The first step of `confirmDelete`: nothing without a pending id; otherwise the
        dialog is closed and reset before any request is made. */
    method BeginDelete() returns (id: Option<Id>)
      modifies this
      ensures id == Pending(old(dialog))
      ensures id.None? ==> dialog == old(dialog)
      ensures id.Some? ==> dialog == Closed()
      ensures services == old(services) && alerts == old(alerts)
    {
      id := Pending(dialog);
      if id.Some? {
        dialog := Closed();
      }
    }

    /** The rest of `confirmDelete`: only an OK response removes the service. */
    method FinishDelete(id: Id, reply: Result<bool>)
      modifies this
      ensures services == (if reply == Ok(true) then Without(old(services), id) else old(services))
      ensures alerts == old(alerts) + Alert(reply)
      ensures dialog == old(dialog)
    {
      if reply == Ok(true) {
        services := Without(services, id);
      } else {
        alerts := alerts + Alert(reply);
      }
    }

    /** `confirmDelete`. */
    method ConfirmDelete(reply: Result<bool>)
      modifies this
      ensures Pending(old(dialog)).None? ==>
        services == old(services) && dialog == old(dialog) && alerts == old(alerts)
      ensures Pending(old(dialog)).Some? ==>
        dialog == Closed()
        && services == (if reply == Ok(true) then Without(old(services), Pending(old(dialog)).value) else old(services))
        && alerts == old(alerts) + Alert(reply)
    {
      var id := BeginDelete();
      if id.Some? {
        FinishDelete(id.value, reply);
      }
    }
  }
}
