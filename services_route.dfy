/** app/api/services/route.ts: anyone may list the services; adding one needs a
    session. */
module ServicesRoute {
  import opened Common
  import opened Store
  import opened Singleton
  import opened Collection
  import opened ServiceModel

  /** What both handlers answer with status 400. */
  function ErrorText(e: Thrown): string {
    MessageOr(e, "An error occurred")
  }

  /** GET: every service, newest first. It writes nothing. */
  method Get(t: Table<Service>, fault: Option<Thrown>) returns (r: Response<seq<Row<Service>>>)
    ensures fault.Some? ==> r == Fail(400, ErrorText(fault.value))
    ensures fault.None? ==> r == Response(200, Success(Newest(t.rows)))
  {
    if fault.Some? {
      return Fail(400, ErrorText(fault.value));
    }
    r := Response(200, Success(Newest(t.rows)));
  }

  /** POST: `Service.create(body)` for a signed-in administrator. */
  method Post(t: Table<Service>, session: bool, fault: Option<Thrown>, body: Service, stamp: Stamp)
    returns (r: Response<Row<Service>>)
    modifies t
    ensures var (o, rows) := Collection.Post(old(t.rows), session, fault, body, Create, stamp);
      t.rows == rows && r == Created(o, "Unauthorized", 400, ErrorText)
  {
    var o := ServePost(t, session, fault, body, Create, stamp);
    r := Created(o, "Unauthorized", 400, ErrorText);
  }

  /** Without a session nothing is stored and the answer is 401; with one, a service is
      stored exactly when the body passes the schema, and is then the one new document. */
  lemma PostStoresAcceptable(rows: seq<Row<Service>>, session: bool, body: Service, stamp: Stamp)
    ensures !session ==> Collection.Post(rows, session, None, body, Create, stamp) == (Unauthorized, rows)
    ensures Collection.Post(rows, session, None, body, Create, stamp).0.Served? <==> session && Acceptable(body)
    ensures session && Acceptable(body) ==>
      Collection.Post(rows, session, None, body, Create, stamp).1 == rows + [Row(stamp.id, stamp.at, Create(body).value)]
    ensures !(session && Acceptable(body)) ==> Collection.Post(rows, session, None, body, Create, stamp).1 == rows
  {
    PostAppendsOne(rows, session, None, body, Create, stamp);
    CreateAcceptsIff(body);
  }
}
