/** app/api/admins/route.ts: the list of administrators, for a signed-in
    administrator, without their passwords. */
module AdminsRoute {
  import opened Common
  import opened Store
  import opened Lists
  import opened Collection
  import opened AdminModel

  /** An admin as `.select('-password')` returns it: every path but the password. */
  datatype AdminView = AdminView(id: Id, createdAt: int, username: Field<string>, email: Field<string>)

  function View(row: Row<Admin>): AdminView {
    AdminView(row.id, row.createdAt, row.doc.username, row.doc.email)
  }

  /** GET. `session` is whether `getServerSession()` finds one; nothing is read
      without it, and nothing is ever written. */
  function Get(rows: seq<Row<Admin>>, session: bool, fault: Option<Thrown>): (r: Response<seq<AdminView>>)
    ensures !session ==> r == Fail(401, "Unauthorized")
    ensures session && fault.Some? ==> r == Fail(500, "Failed to fetch admins")
  {
    if !session then Fail(401, "Unauthorized")
    else if fault.Some? then Fail(500, "Failed to fetch admins")
    else Response(200, Success(Map(Newest(rows), View)))
  }

  /** A successful GET lists every stored admin once, newest first, each with its own
      id, username and email. */
  lemma GetListsNewest(rows: seq<Row<Admin>>)
    ensures Get(rows, true, None).status == 200
    ensures var list := Get(rows, true, None).body.data;
      |list| == |rows|
      && (forall i, j :: 0 <= i < j < |list| ==> list[i].createdAt >= list[j].createdAt)
      && multiset(list) == multiset(Map(rows, View))
      && (forall i :: 0 <= i < |list| ==> exists k :: 0 <= k < |rows| && list[i] == View(rows[k]))
  {
    var sorted := Newest(rows);
    MapPermutes(sorted, rows, View);
    var list := Map(sorted, View);
    forall i | 0 <= i < |list|
      ensures exists k :: 0 <= k < |rows| && list[i] == View(rows[k])
    {
      assert sorted[i] in multiset(rows);
      var k :| 0 <= k < |rows| && rows[k] == sorted[i];
    }
  }
}
