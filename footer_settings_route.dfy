/** app/api/footer-settings/route.ts: GET creates the footer from literal values when
    none exists; PATCH creates it from the body, or updates the stored document by its
    id. */
module FooterSettingsRoute {
  import opened Common
  import opened Store
  import opened Singleton
  import opened FooterSettingsModel

  function SeedLinks(): seq<QuickLink> {
    [QuickLink(Present("Home"), Present("/")),
     QuickLink(Present("About"), Present("/about")),
     QuickLink(Present("Services"), Present("/services")),
     QuickLink(Present("Contact"), Present("/contact"))]
  }

  /** The document GET creates. */
  function Seed(): FooterSettings {
    FooterSettings(
      Present("ModelPro"),
      Present("Professional modeling services for brands, events, and content creation."),
      Present(SeedLinks()),
      Present("contact@modelpro.com"),
      Present("+1 (555) 123-4567"),
      Present("New York, NY"),
      Present("ModelPro. All rights reserved."))
  }

  function FetchFailure(e: Thrown): string { "Failed to fetch settings" }

  function UpdateFailure(e: Thrown): string { "Failed to update settings" }

  method Get(t: Table<FooterSettings>, fault: Option<Thrown>, stamp: Stamp) returns (r: Response<Row<FooterSettings>>)
    modifies t
    ensures var (o, rows) := Singleton.Get(old(t.rows), fault, Create(Seed()), stamp);
      t.rows == rows && r == Respond(o, "Unauthorized", FetchFailure)
  {
    var o := ServeGet(t, fault, Create(Seed()), stamp);
    r := Respond(o, "Unauthorized", FetchFailure);
  }

  method Patch(t: Table<FooterSettings>, session: bool, fault: Option<Thrown>, body: FooterSettings, stamp: Stamp)
    returns (r: Response<Row<FooterSettings>>)
    modifies t
    ensures var (o, rows) := Singleton.Patch(old(t.rows), session, fault, body, Create, Update, stamp);
      t.rows == rows && r == Respond(o, "Unauthorized", UpdateFailure)
  {
    var o := ServePatch(t, session, fault, body, Create, Update, stamp);
    r := Respond(o, "Unauthorized", UpdateFailure);
  }

  /** The literal document is accepted and stored as written: the schema's default
      texts and the four links Home, About, Services and Contact. */
  lemma SeedAccepted()
    ensures Create(Seed()).Ok? && Create(Seed()).value == Seed()
    ensures Seed() == Cast(Seed().(quickLinks := Absent)).(quickLinks := Present(SeedLinks()))
    ensures |SeedLinks()| == 4 && SeedLinks()[0].labelText == Present("Home") && SeedLinks()[3].labelText == Present("Contact")
  {
    var s := SeedLinks();
    assert ValidLink(s[0]) && ValidLink(s[1]) && ValidLink(s[2]) && ValidLink(s[3]);
    assert Cast(Seed()) == Seed();
  }
}
