/** app/request-service/page.tsx: the public form that requests a service, with the
    service chosen from the list or preselected by the `serviceId` query parameter. */
module RequestServicePage {
  import opened Common
  import opened Store
  import opened OrderModel
  import opened ServiceModel
  import Collection
  import OrdersRoute

  /** `formData`: the body later posted as is. It never has a `status`. */
  function Initial(): Order {
    Order(Present(""), Present(""), Present(""), Present(""), Present(""), Present(""), Present(""), Absent)
  }

  /** The page's state: the services offered and the form. */
  datatype Page = Page(services: seq<Row<Service>>, form: Order)

  /** The reply lists the services and one of them has the queried id. */
  predicate Preselects(reply: Result<Body<seq<Row<Service>>>>, query: Option<string>) {
    reply.Ok? && reply.value.Success? && query.Some? && query.value != "" && Find(reply.value.data, query.value).Some?
  }

  /** `fetchServices` with the `serviceId` of the query string (`None` when there is
      none). `reply` is the parsed body of GET /api/services, or what was thrown. */
  function Load(p: Page, reply: Result<Body<seq<Row<Service>>>>, query: Option<string>): (r: Page)
    ensures !(reply.Ok? && reply.value.Success?) ==> r == p
    ensures reply.Ok? && reply.value.Success? ==> r.services == reply.value.data
    ensures Preselects(reply, query) ==>
      r.form == p.form.(serviceId := Present(query.value),
                        serviceName := Find(reply.value.data, query.value).value.doc.name)
    ensures !Preselects(reply, query) ==> r.form == p.form
  {
    if reply.Ok? && reply.value.Success? then
      var services := reply.value.data;
      if query.Some? && query.value != "" && Find(services, query.value).Some? then
        Page(services, p.form.(serviceId := Present(query.value), serviceName := Find(services, query.value).value.doc.name))
      else Page(services, p.form)
    else p
  }

  /** `handleServiceChange`: the chosen id, and the name of the first service with it
      or "" when none has it. */
  function ChooseService(p: Page, id: string): (r: Page)
    ensures r.services == p.services
    ensures r.form.serviceId == Present(id)
    ensures Find(p.services, id).Some? ==> r.form.serviceName == Find(p.services, id).value.doc.name
    ensures Find(p.services, id).None? ==> r.form.serviceName == Present("")
  {
    var name := match Find(p.services, id) case Some(s) => s.doc.name case None => Present("");
    p.(form := p.form.(serviceId := Present(id), serviceName := name))
  }

  /** Choosing or preselecting a service changes the service id and name and no
      other field of the form. */
  lemma SelectionKeepsOtherFields(p: Page, id: string, reply: Result<Body<seq<Row<Service>>>>, query: Option<string>)
    ensures var f := ChooseService(p, id).form;
      f.(serviceId := p.form.serviceId, serviceName := p.form.serviceName) == p.form
    ensures var f := Load(p, reply, query).form;
      f.(serviceId := p.form.serviceId, serviceName := p.form.serviceName) == p.form
  {
  }

  /** The form never says which status it wants, so a stored request starts as
      "pending". */
  lemma SubmittedRequestPending(form: Order)
    requires form.status.Absent? && OrderModel.Create(form).Ok?
    ensures OrderModel.Create(form).value.status == Present("pending")
  {
    assert OrderModel.Create(form).value == OrderModel.Cast(form);
  }

  /** The editors keep the form without a status. */
  lemma FormHasNoStatus(p: Page, id: string, reply: Result<Body<seq<Row<Service>>>>, query: Option<string>)
    requires p.form.status.Absent?
    ensures ChooseService(p, id).form.status.Absent? && Load(p, reply, query).form.status.Absent?
  {
    SelectionKeepsOtherFields(p, id, reply, query);
  }

  /** Where `handleSubmit` ends, given `response.ok` or what `fetch` threw. */
  datatype Outcome = Navigate(path: string) | Stay(alert: string)

  function Submit(reply: Result<bool>): (o: Outcome)
    ensures o.Navigate? <==> reply == Ok(true)
    ensures o.Navigate? ==> o.path == "/request-service/success"
    ensures reply == Ok(false) ==> o == Stay("Failed to submit request. Please try again.")
    ensures reply.Err? ==> o == Stay("An error occurred. Please try again.")
  {
    match reply
    case Ok(true) => Navigate("/request-service/success")
    case Ok(false) => Stay("Failed to submit request. Please try again.")
    case Err(_) => Stay("An error occurred. Please try again.")
  }

  /** Submitting against the route: `response.ok` holds, and the page moves on to the
      success page, exactly when the POST stores the form, which needs no session: the
      store does not throw and `Order.create` accepts it. The one new document is then
      the created request; otherwise nothing is stored. */
  lemma SubmitNavigatesIffStored(p: Page, rows: seq<Row<Order>>, fault: Option<Thrown>, stamp: Stamp)
    ensures var (o, after) := Collection.Post(rows, true, fault, p.form, OrderModel.Create, stamp);
      var status := Collection.Created(o, "Unauthorized", 400, OrdersRoute.ErrorText).status;
      var shown := Submit(Ok(200 <= status < 300));
      (shown.Navigate? <==> fault.None? && OrderModel.Create(p.form).Ok?)
      && (shown.Navigate? ==> after == rows + [Row(stamp.id, stamp.at, OrderModel.Create(p.form).value)])
      && (!shown.Navigate? ==> after == rows)
  {
    Collection.PostAppendsOne(rows, true, fault, p.form, OrderModel.Create, stamp);
  }
}
