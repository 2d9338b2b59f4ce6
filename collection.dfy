/** The pattern of the collection routes: a POST that may need a session and inserts
    one document built from the body, and a GET that lists the documents in the order
    the query's `.sort(...)` gives. */
module Collection {
  import opened Common
  import opened Store
  import opened Sorting
  import opened Singleton

  /** POST. The session check comes first; `fault` is a throw from the connection;
      `create` is `Model.create(...)` of what the route builds from the body. It never
      changes or removes a stored document: it adds at most the one it serves, under
      the new id. */
  function Post<D, B>(rows: seq<Row<D>>, session: bool, fault: Option<Thrown>, body: B,
                      create: B -> Result<D>, stamp: Stamp): (r: (Outcome<D>, seq<Row<D>>))
    ensures r.0.Unauthorized? <==> !session
    ensures r.1 == rows || (r.0.Served? && r.1 == rows + [r.0.row])
    ensures r.0.Served? ==> r.0.row.id == stamp.id && r.0.row.createdAt == stamp.at && |r.1| == |rows| + 1
  {
    if !session then (Unauthorized, rows)
    else if fault.Some? then (Failed(fault.value), rows)
    else
      match create(body)
      case Err(e) => (Failed(e), rows)
      case Ok(d) => (Served(Row(stamp.id, stamp.at, d)), rows + [Row(stamp.id, stamp.at, d)])
  }

  /** The response of a POST: 201 with the new document, 401 with the route's refusal
      text, or `failStatus` with the text `failure` picks for the thrown value. */
  function Created<D>(o: Outcome<D>, unauthorized: string, failStatus: nat, failure: Thrown -> string)
    : (r: Response<Row<D>>)
    requires failStatus != 201 && failStatus != 401
    ensures r.status == 201 <==> o.Served?
    ensures r.status == 401 <==> o.Unauthorized?
    ensures r.status == failStatus <==> o.Failed?
    ensures o.Served? ==> r.body == Success(o.row)
    ensures o.Unauthorized? ==> r.body == Failure(unauthorized)
    ensures o.Failed? ==> r.body == Failure(failure(o.error))
  {
    match o
    case Served(row) => Response(201, Success(row))
    case Unauthorized => Fail(401, unauthorized)
    case Failed(e) => Fail(failStatus, failure(e))
  }

  method ServePost<D, B>(t: Table<D>, session: bool, fault: Option<Thrown>, body: B,
                         create: B -> Result<D>, stamp: Stamp) returns (o: Outcome<D>)
    modifies t
    ensures (o, t.rows) == Post(old(t.rows), session, fault, body, create, stamp)
  {
    if !session {
      return Unauthorized;
    }
    if fault.Some? {
      return Failed(fault.value);
    }
    match create(body) {
      case Err(e) =>
        o := Failed(e);
      case Ok(d) =>
        var row := t.Insert(d, stamp);
        o := Served(row);
    }
  }

  /** A POST either appends exactly one document, the one `create` built, under the
      new id, or writes nothing; without a session it is refused before anything
      else. */
  lemma PostAppendsOne<D, B>(rows: seq<Row<D>>, session: bool, fault: Option<Thrown>, body: B,
                             create: B -> Result<D>, stamp: Stamp)
    ensures var (o, after) := Post(rows, session, fault, body, create, stamp);
      (o.Served? <==> session && fault.None? && create(body).Ok?)
      && (o.Served? ==> o.row == Row(stamp.id, stamp.at, create(body).value) && after == rows + [o.row])
      && (!o.Served? ==> after == rows)
      && (!session ==> o == Unauthorized)
  {
  }

  /** `.sort({ createdAt: -1 })`: newest first. */
  function NewestFirst<D>(a: Row<D>, b: Row<D>): bool {
    a.createdAt >= b.createdAt
  }

  lemma NewestFirstPreorder<D(!new)>()
    ensures TotalPreorder<Row<D>>(NewestFirst)
  {
  }

  /** `Model.find({}).sort({ createdAt: -1 })`: the same documents, newest first. */
  function Newest<D(!new)>(rows: seq<Row<D>>): (r: seq<Row<D>>)
    ensures |r| == |rows|
    ensures multiset(r) == multiset(rows)
    ensures forall i, j :: 0 <= i < j < |r| ==> r[i].createdAt >= r[j].createdAt
  {
    NewestFirstPreorder<D>();
    SortSorted(rows, NewestFirst);
    Sort(rows, NewestFirst)
  }
}
