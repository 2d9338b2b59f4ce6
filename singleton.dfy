/** The pattern every settings-like route follows for its one document: GET reads
    the first document and, when there is none, creates it from the route's
    hard-coded defaults; PATCH needs a session and then creates from the body when
    nothing is stored, or updates the stored document otherwise. `Get` and `Patch`
    give the outcome and the new contents of the collection; `ServeGet` and
    `ServePatch` carry them out on a `Table`. */
module Singleton {
  import opened Common
  import opened Store

  /** What a handler ends with before it is turned into an HTTP response. */
  datatype Outcome<D> = Served(row: Row<D>) | Unauthorized | Failed(error: Thrown)

  /** The response a handler sends for an outcome: 200 with the document, 401 with
      the route's refusal text, or 500 with the text `failure` picks for the thrown
      value. */
  function Respond<D>(o: Outcome<D>, unauthorized: string, failure: Thrown -> string): (r: Response<Row<D>>)
    ensures r.status == 200 <==> o.Served?
    ensures r.status == 401 <==> o.Unauthorized?
    ensures r.status == 500 <==> o.Failed?
    ensures o.Served? ==> r.body == Success(o.row)
    ensures o.Unauthorized? ==> r.body == Failure(unauthorized)
    ensures o.Failed? ==> r.body == Failure(failure(o.error))
  {
    match o
    case Served(row) => Response(200, Success(row))
    case Unauthorized => Fail(401, unauthorized)
    case Failed(e) => Fail(500, failure(e))
  }

  /** Ids are unique within the collection (the `_id` index). */
  predicate UniqueIds<D>(rows: seq<Row<D>>) {
    forall i, j :: 0 <= i < j < |rows| ==> rows[i].id != rows[j].id
  }

  /** GET. `fault` is a throw from the connection or the query; `seed` is
      `Model.create(defaults)`, which may itself fail validation. */
  function Get<D>(rows: seq<Row<D>>, fault: Option<Thrown>, seed: Result<D>, stamp: Stamp)
    : (r: (Outcome<D>, seq<Row<D>>))
    ensures !r.0.Unauthorized?
    ensures r.0.Served? <==> fault.None? && (rows != [] || seed.Ok?)
    ensures r.0.Served? ==> r.1 != [] && r.0.row == r.1[0]
    ensures fault.None? && rows != [] ==> r.0 == Served(rows[0])
    ensures r.1 == rows || (rows == [] && r.0.Served? && r.1 == [r.0.row] && r.0.row.id == stamp.id)
  {
    if fault.Some? then (Failed(fault.value), rows)
    else if rows != [] then (Served(rows[0]), rows)
    else
      match seed
      case Err(e) => (Failed(e), rows)
      case Ok(d) => (Served(Row(stamp.id, stamp.at, d)), [Row(stamp.id, stamp.at, d)])
  }

  /** PATCH. The session check comes first; `create` is `Model.create(body)` and
      `update` the route's way of changing the stored document. */
  function Patch<D, B>(rows: seq<Row<D>>, session: bool, fault: Option<Thrown>, body: B,
                       create: B -> Result<D>, update: (D, B) -> Result<D>, stamp: Stamp)
    : (r: (Outcome<D>, seq<Row<D>>))
    ensures r.0.Unauthorized? <==> !session
    ensures r.0.Served? <==>
      session && fault.None? && (if rows == [] then create(body).Ok? else update(rows[0].doc, body).Ok?)
    ensures !r.0.Served? ==> r.1 == rows
    ensures r.0.Served? ==> r.1 != [] && r.0.row == r.1[0] && |r.1| == (if rows == [] then 1 else |rows|)
    ensures r.0.Served? && rows == [] ==> r.0.row == Row(stamp.id, stamp.at, create(body).value)
    ensures r.0.Served? && rows != [] ==>
      r.0.row == rows[0].(doc := update(rows[0].doc, body).value)
  {
    if !session then (Unauthorized, rows)
    else if fault.Some? then (Failed(fault.value), rows)
    else if rows == [] then
      match create(body)
      case Err(e) => (Failed(e), rows)
      case Ok(d) => (Served(Row(stamp.id, stamp.at, d)), [Row(stamp.id, stamp.at, d)])
    else
      match update(rows[0].doc, body)
      case Err(e) => (Failed(e), rows)
      case Ok(d) => (Served(rows[0].(doc := d)), Replace(rows, rows[0].id, d))
  }

  method ServeGet<D>(t: Table<D>, fault: Option<Thrown>, seed: Result<D>, stamp: Stamp)
    returns (o: Outcome<D>)
    modifies t
    ensures (o, t.rows) == Get(old(t.rows), fault, seed, stamp)
  {
    if fault.Some? {
      return Failed(fault.value);
    }
    var found := t.FindOne();
    if found.Some? {
      return Served(found.value);
    }
    match seed {
      case Err(e) =>
        o := Failed(e);
      case Ok(d) =>
        var row := t.Insert(d, stamp);
        assert t.rows == [row];
        o := Served(row);
    }
  }

  method ServePatch<D, B>(t: Table<D>, session: bool, fault: Option<Thrown>, body: B,
                          create: B -> Result<D>, update: (D, B) -> Result<D>, stamp: Stamp)
    returns (o: Outcome<D>)
    modifies t
    ensures (o, t.rows) == Patch(old(t.rows), session, fault, body, create, update, stamp)
  {
    if !session {
      return Unauthorized;
    }
    if fault.Some? {
      return Failed(fault.value);
    }
    var existing := t.FindOne();
    if existing.None? {
      match create(body) {
        case Err(e) =>
          o := Failed(e);
        case Ok(d) =>
          var row := t.Insert(d, stamp);
          assert t.rows == [row];
          o := Served(row);
      }
    } else {
      var row := existing.value;
      match update(row.doc, body) {
        case Err(e) =>
          o := Failed(e);
        case Ok(d) =>
          t.Save(row.id, d);
          o := Served(row.(doc := d));
      }
    }
  }

  /** A GET on a non-empty collection returns its first document and writes nothing;
      on an empty one it stores exactly the seed document and returns it. */
  lemma GetBootstraps<D>(rows: seq<Row<D>>, seed: Result<D>, stamp: Stamp)
    ensures rows != [] ==> Get(rows, None, seed, stamp) == (Served(rows[0]), rows)
    ensures rows == [] && seed.Ok? ==>
      Get(rows, None, seed, stamp) == (Served(Row(stamp.id, stamp.at, seed.value)), [Row(stamp.id, stamp.at, seed.value)])
  {
  }

  /** After a successful GET the collection is non-empty, and a second GET serves the
      same document and writes nothing, whatever id it would have used. */
  lemma GetIdempotent<D>(rows: seq<Row<D>>, seed: Result<D>, s1: Stamp, s2: Stamp)
    requires Get(rows, None, seed, s1).0.Served?
    ensures Get(rows, None, seed, s1).1 != []
    ensures Get(Get(rows, None, seed, s1).1, None, seed, s2) == Get(rows, None, seed, s1)
  {
  }

  /** Anything but a served outcome leaves the collection as it was; an unauthenticated
      PATCH in particular is refused before anything is read or written. */
  lemma PatchFailureWritesNothing<D, B>(rows: seq<Row<D>>, session: bool, fault: Option<Thrown>, body: B,
                                        create: B -> Result<D>, update: (D, B) -> Result<D>, stamp: Stamp)
    ensures !session ==> Patch(rows, session, fault, body, create, update, stamp) == (Unauthorized, rows)
    ensures !Patch(rows, session, fault, body, create, update, stamp).0.Served? ==>
      Patch(rows, session, fault, body, create, update, stamp).1 == rows
  {
  }

  /** A PATCH on a stored document keeps its id and creation time, changes no other
      document, and serves what it stored. */
  lemma PatchUpdatesInPlace<D, B>(rows: seq<Row<D>>, fault: Option<Thrown>, body: B,
                                  create: B -> Result<D>, update: (D, B) -> Result<D>, stamp: Stamp)
    requires rows != [] && UniqueIds(rows)
    ensures var (o, after) := Patch(rows, true, fault, body, create, update, stamp);
      |after| == |rows| && after[0].id == rows[0].id && after[0].createdAt == rows[0].createdAt
      && after[1..] == rows[1..]
      && (o.Served? ==> o.row == after[0] && update(rows[0].doc, body) == Ok(after[0].doc))
  {
    var (o, after) := Patch(rows, true, fault, body, create, update, stamp);
    if o.Served? && fault.None? {
      forall i | 1 <= i < |rows|
        ensures after[i] == rows[i]
      {
        assert rows[i].id != rows[0].id;
      }
    }
  }

  /** One request of either kind, as the route receives it. */
  datatype Request<B> =
    | Read(readFault: Option<Thrown>, readStamp: Stamp)
    | Write(session: bool, writeFault: Option<Thrown>, body: B, writeStamp: Stamp)

  function Step<D, B>(rows: seq<Row<D>>, req: Request<B>, seed: Result<D>,
                      create: B -> Result<D>, update: (D, B) -> Result<D>): seq<Row<D>>
  {
    match req
    case Read(f, s) => Get(rows, f, seed, s).1
    case Write(a, f, b, s) => Patch(rows, a, f, b, create, update, s).1
  }

  /** The collection after a sequence of requests handled one after another. */
  function Replay<D, B>(rows: seq<Row<D>>, reqs: seq<Request<B>>, seed: Result<D>,
                        create: B -> Result<D>, update: (D, B) -> Result<D>): seq<Row<D>>
    decreases |reqs|
  {
    if reqs == [] then rows else Replay(Step(rows, reqs[0], seed, create, update), reqs[1..], seed, create, update)
  }

  /** Requests handled one at a time never make a second document: starting from at
      most one, there is at most one after any history, and once a document exists it
      stays, under the same id. */
  lemma {:induction false} ReplayKeepsOneDocument<D, B>(rows: seq<Row<D>>, reqs: seq<Request<B>>, seed: Result<D>,
                                                        create: B -> Result<D>, update: (D, B) -> Result<D>)
    requires |rows| <= 1
    ensures |Replay(rows, reqs, seed, create, update)| <= 1
    ensures rows != [] ==>
      (Replay(rows, reqs, seed, create, update) != []
       && Replay(rows, reqs, seed, create, update)[0].id == rows[0].id)
    decreases |reqs|
  {
    if reqs != [] {
      var next := Step(rows, reqs[0], seed, create, update);
      assert |next| <= 1;
      assert rows != [] ==> next != [] && next[0].id == rows[0].id;
      ReplayKeepsOneDocument(next, reqs[1..], seed, create, update);
    }
  }
}
