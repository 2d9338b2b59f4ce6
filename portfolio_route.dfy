/** app/api/portfolio/route.ts: anyone may list the gallery, in the order the
    administrator set; adding an image needs a session and an image URL. */
module PortfolioRoute {
  import opened Common
  import opened Store
  import opened Sorting
  import opened Singleton
  import opened Collection
  import opened PortfolioModel

  const FetchFailure := "Failed to fetch portfolio images"
  const CreateFailure := "Failed to create portfolio image"

  /** The sort key `order: 1`: a missing or `null` order sorts before every number. */
  predicate OrderAtMost(f: Field<int>, g: Field<int>) {
    !f.Present? || (g.Present? && f.value <= g.value)
  }

  /** `.sort({ order: 1, createdAt: -1 })`: ascending `order`, and newest first among
      equal orders. */
  predicate GalleryOrder(a: Row<Portfolio>, b: Row<Portfolio>) {
    var x := a.doc.order;
    var y := b.doc.order;
    if OrderAtMost(x, y) && OrderAtMost(y, x) then a.createdAt >= b.createdAt else OrderAtMost(x, y)
  }

  lemma GalleryOrderPreorder()
    ensures TotalPreorder(GalleryOrder)
  {
  }

  /** `Portfolio.find().sort({ order: 1, createdAt: -1 })`: the stored images, by
      ascending order, and newest first among images with the same order. */
  function Gallery(rows: seq<Row<Portfolio>>): (r: seq<Row<Portfolio>>)
    ensures |r| == |rows|
    ensures multiset(r) == multiset(rows)
    ensures forall i, j :: 0 <= i < j < |r| ==> OrderAtMost(r[i].doc.order, r[j].doc.order)
    ensures forall i, j :: 0 <= i < j < |r| && r[i].doc.order == r[j].doc.order ==> r[i].createdAt >= r[j].createdAt
  {
    GalleryOrderPreorder();
    SortSorted(rows, GalleryOrder);
    var r := Sort(rows, GalleryOrder);
    assert forall i, j :: 0 <= i < j < |r| ==> GalleryOrder(r[i], r[j]);
    r
  }

  /** GET. It writes nothing. */
  method Get(t: Table<Portfolio>, fault: Option<Thrown>) returns (r: Response<seq<Row<Portfolio>>>)
    ensures fault.Some? ==> r == Fail(500, FetchFailure)
    ensures fault.None? ==> r == Response(200, Success(Gallery(t.rows)))
  {
    if fault.Some? {
      return Fail(500, FetchFailure);
    }
    r := Response(200, Success(Gallery(t.rows)));
  }

  /** The document POST creates: the four properties it reads from the body, with
      `order || 0`. */
  function Payload(body: Portfolio): (p: Portfolio)
    ensures p.imageUrl == body.imageUrl && p.title == body.title && p.description == body.description
    ensures p.order == Present(if body.order.Present? then body.order.value else 0)
  {
    Portfolio(body.imageUrl, body.title, body.description,
              if body.order.Present? && body.order.value != 0 then body.order else Present(0))
  }

  function CreateFailureText(e: Thrown): string {
    CreateFailure
  }

  /** POST: the session check, the connection, `!imageUrl`, then the insert. */
  function Post(rows: seq<Row<Portfolio>>, session: bool, fault: Option<Thrown>, body: Portfolio, stamp: Stamp)
    : (Response<Row<Portfolio>>, seq<Row<Portfolio>>)
  {
    if !session then (Fail(401, "Unauthorized"), rows)
    else if fault.Some? then (Fail(500, CreateFailure), rows)
    else if !Truthy(body.imageUrl) then (Fail(400, "Image URL is required"), rows)
    else
      var (o, after) := Collection.Post(rows, true, None, Payload(body), Create, stamp);
      (Created(o, "Unauthorized", 500, CreateFailureText), after)
  }

  method ServePost(t: Table<Portfolio>, session: bool, fault: Option<Thrown>, body: Portfolio, stamp: Stamp)
    returns (r: Response<Row<Portfolio>>)
    modifies t
    ensures (r, t.rows) == Post(old(t.rows), session, fault, body, stamp)
  {
    if !session {
      return Fail(401, "Unauthorized");
    }
    if fault.Some? {
      return Fail(500, CreateFailure);
    }
    if !Truthy(body.imageUrl) {
      return Fail(400, "Image URL is required");
    }
    var o := Collection.ServePost(t, true, None, Payload(body), Create, stamp);
    r := Created(o, "Unauthorized", 500, CreateFailureText);
  }

  /** With a session and a connection: a missing, `null` or empty URL is answered 400
      and stores nothing; a URL of white space alone passes that check but not the
      schema, and is answered 500; any other URL stores exactly one image, whose order
      is the given one or 0. */
  lemma PostOutcomes(rows: seq<Row<Portfolio>>, body: Portfolio, stamp: Stamp)
    ensures !Truthy(body.imageUrl) ==> Post(rows, true, None, body, stamp) == (Fail(400, "Image URL is required"), rows)
    ensures Truthy(body.imageUrl) && Text.IsBlank(body.imageUrl.value) ==>
      Post(rows, true, None, body, stamp) == (Fail(500, CreateFailure), rows)
    ensures Truthy(body.imageUrl) && !Text.IsBlank(body.imageUrl.value) ==>
      Post(rows, true, None, body, stamp).0.status == 201
      && Post(rows, true, None, body, stamp).1 == rows + [Row(stamp.id, stamp.at, Create(Payload(body)).value)]
      && Create(Payload(body)).value.order == Present(if body.order.Present? then body.order.value else 0)
  {
    PostAppendsOne(rows, true, None, Payload(body), Create, stamp);
    CreateAcceptsIff(Payload(body));
    if Create(Payload(body)).Ok? {
      CreateStores(Payload(body));
    }
  }

  /** Without a session the answer is 401 and nothing is stored. */
  lemma PostNeedsSession(rows: seq<Row<Portfolio>>, fault: Option<Thrown>, body: Portfolio, stamp: Stamp)
    ensures Post(rows, false, fault, body, stamp) == (Fail(401, "Unauthorized"), rows)
  {
  }
}
