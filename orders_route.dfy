/** app/api/orders/route.ts: listing the service requests needs a session; anyone
    may place one. */
module OrdersRoute {
  import opened Common
  import opened Store
  import opened Singleton
  import opened Collection
  import opened OrderModel

  /** What both handlers answer with status 400. */
  function ErrorText(e: Thrown): string {
    MessageOr(e, "An error occurred")
  }

  /** GET: every order, newest first, for a signed-in administrator. It writes
      nothing. */
  method Get(t: Table<Order>, session: bool, fault: Option<Thrown>) returns (r: Response<seq<Row<Order>>>)
    ensures !session ==> r == Fail(401, "Unauthorized")
    ensures session && fault.Some? ==> r == Fail(400, ErrorText(fault.value))
    ensures session && fault.None? ==> r == Response(200, Success(Newest(t.rows)))
  {
    if !session {
      return Fail(401, "Unauthorized");
    }
    if fault.Some? {
      return Fail(400, ErrorText(fault.value));
    }
    r := Response(200, Success(Newest(t.rows)));
  }

  /** POST: `Order.create(body)` with the whole body; there is no session check. */
  method Post(t: Table<Order>, fault: Option<Thrown>, body: Order, stamp: Stamp) returns (r: Response<Row<Order>>)
    modifies t
    ensures var (o, rows) := Collection.Post(old(t.rows), true, fault, body, Create, stamp);
      t.rows == rows && r == Created(o, "Unauthorized", 400, ErrorText)
  {
    var o := ServePost(t, true, fault, body, Create, stamp);
    r := Created(o, "Unauthorized", 400, ErrorText);
  }

  /** A request is stored exactly when the body passes the schema; it is then the one
      new document, its status the one the client chose or "pending". A refused
      request is answered 400 with the error's message and stores nothing. */
  lemma PostStoresAcceptable(rows: seq<Row<Order>>, body: Order, stamp: Stamp)
    ensures Collection.Post(rows, true, None, body, Create, stamp).0.Served? <==> Acceptable(body)
    ensures Acceptable(body) ==>
      Collection.Post(rows, true, None, body, Create, stamp).1 == rows + [Row(stamp.id, stamp.at, Create(body).value)]
    ensures !Acceptable(body) ==> Collection.Post(rows, true, None, body, Create, stamp).1 == rows
    ensures !Acceptable(body) ==>
      Created(Collection.Post(rows, true, None, body, Create, stamp).0, "Unauthorized", 400, ErrorText)
      == Fail(400, ErrorText(Create(body).error))
  {
    PostAppendsOne(rows, true, None, body, Create, stamp);
    CreateAcceptsIff(body);
  }

  /** The status of the order `Post` stores is the one the body names, so a client
      may place an order that is already "completed"; only a missing one becomes
      "pending". */
  lemma PostKeepsClientStatus(body: Order)
    requires Acceptable(body)
    ensures Create(body).Ok?
    ensures Create(body).value.status == (if body.status.Absent? then Present("pending") else body.status)
  {
    CreateAcceptsIff(body);
    CreateDefaults(body);
  }
}
