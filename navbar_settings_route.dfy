/** app/api/navbar-settings/route.ts: GET creates the navigation bar from literal
    values when none exists; PATCH creates it from the body, or updates the stored
    document by its id. */
module NavbarSettingsRoute {
  import opened Common
  import opened Store
  import opened Schema
  import opened Singleton
  import opened NavbarSettingsModel

  function SeedLinks(): seq<NavLink> {
    [NavLink(Present("Home"), Present("/"), Present(1)),
     NavLink(Present("About"), Present("/about"), Present(2)),
     NavLink(Present("Services"), Present("/services"), Present(3)),
     NavLink(Present("Contact"), Present("/contact"), Present(4))]
  }

  /** The document GET creates. */
  function Seed(): NavbarSettings {
    NavbarSettings(Present("ModelPro"), Present(SeedLinks()))
  }

  function FetchFailure(e: Thrown): string { "Failed to fetch settings" }

  function UpdateFailure(e: Thrown): string { "Failed to update settings" }

  method Get(t: Table<NavbarSettings>, fault: Option<Thrown>, stamp: Stamp) returns (r: Response<Row<NavbarSettings>>)
    modifies t
    ensures var (o, rows) := Singleton.Get(old(t.rows), fault, Create(Seed()), stamp);
      t.rows == rows && r == Respond(o, "Unauthorized", FetchFailure)
  {
    var o := ServeGet(t, fault, Create(Seed()), stamp);
    r := Respond(o, "Unauthorized", FetchFailure);
  }

  method Patch(t: Table<NavbarSettings>, session: bool, fault: Option<Thrown>, body: NavbarSettings, stamp: Stamp)
    returns (r: Response<Row<NavbarSettings>>)
    modifies t
    ensures var (o, rows) := Singleton.Patch(old(t.rows), session, fault, body, Create, Update, stamp);
      t.rows == rows && r == Respond(o, "Unauthorized", UpdateFailure)
  {
    var o := ServePatch(t, session, fault, body, Create, Update, stamp);
    r := Respond(o, "Unauthorized", UpdateFailure);
  }

  /** The literal document is accepted and stored as written; its four links carry
      the orders 1, 2, 3, 4, and its site name is the schema's default. */
  lemma SeedAccepted()
    ensures Create(Seed()).Ok? && Create(Seed()).value == Seed()
    ensures |SeedLinks()| == 4
    ensures forall i :: 0 <= i < 4 ==> SeedLinks()[i].order == Present(i + 1)
    ensures Seed().siteName == Present(DefaultSiteName)
  {
    var s := SeedLinks();
    assert ValidLink(s[0]) && ValidLink(s[1]) && ValidLink(s[2]) && ValidLink(s[3]);
    var c := CastEach(Seed().navLinks, CastLink);
    assert c.value[0] == s[0] && c.value[1] == s[1] && c.value[2] == s[2] && c.value[3] == s[3];
    assert c.value == s;
    assert Cast(Seed()) == Seed();
  }
}
