/** app/api/services-page-settings/route.ts: the header of the services page. GET
    creates it from literal values when none exists; PATCH creates it from the body, or
    updates the stored document by its id. The schema has two texts with defaults and
    no validators. */
module ServicesPageSettingsRoute {
  import opened Common
  import opened Store
  import opened Schema
  import opened Singleton

  datatype ServicesPageSettings = ServicesPageSettings(headerTitle: Field<string>, headerSubtitle: Field<string>)

  const DefaultHeaderTitle := "Our Services"
  const DefaultHeaderSubtitle := "Professional modeling services tailored to your needs"

  /** `ServicesPageSettings.create(body)`: nothing can fail validation. */
  function Create(b: ServicesPageSettings): (r: Result<ServicesPageSettings>)
    ensures r.Ok?
    ensures b.headerTitle.Absent? ==> r.value.headerTitle == Present(DefaultHeaderTitle)
    ensures !b.headerTitle.Absent? ==> r.value.headerTitle == b.headerTitle
    ensures b.headerSubtitle.Absent? ==> r.value.headerSubtitle == Present(DefaultHeaderSubtitle)
    ensures !b.headerSubtitle.Absent? ==> r.value.headerSubtitle == b.headerSubtitle
  {
    Ok(ServicesPageSettings(WithDefault(b.headerTitle, DefaultHeaderTitle), WithDefault(b.headerSubtitle, DefaultHeaderSubtitle)))
  }

  /** `findByIdAndUpdate(id, body)`: each given path replaces the stored one. */
  function Update(stored: ServicesPageSettings, b: ServicesPageSettings): (r: Result<ServicesPageSettings>)
    ensures r.Ok?
    ensures r.value.headerTitle == (if b.headerTitle.Absent? then stored.headerTitle else b.headerTitle)
    ensures r.value.headerSubtitle == (if b.headerSubtitle.Absent? then stored.headerSubtitle else b.headerSubtitle)
  {
    Ok(ServicesPageSettings(Overwrite(stored.headerTitle, b.headerTitle), Overwrite(stored.headerSubtitle, b.headerSubtitle)))
  }

  /** The document GET creates. */
  function Seed(): ServicesPageSettings {
    ServicesPageSettings(Present("Our Services"), Present("Professional modeling services tailored to your needs"))
  }

  function FetchFailure(e: Thrown): string { "Failed to fetch settings" }

  function UpdateFailure(e: Thrown): string { "Failed to update settings" }

  method Get(t: Table<ServicesPageSettings>, fault: Option<Thrown>, stamp: Stamp) returns (r: Response<Row<ServicesPageSettings>>)
    modifies t
    ensures var (o, rows) := Singleton.Get(old(t.rows), fault, Create(Seed()), stamp);
      t.rows == rows && r == Respond(o, "Unauthorized", FetchFailure)
  {
    var o := ServeGet(t, fault, Create(Seed()), stamp);
    r := Respond(o, "Unauthorized", FetchFailure);
  }

  method Patch(t: Table<ServicesPageSettings>, session: bool, fault: Option<Thrown>, body: ServicesPageSettings, stamp: Stamp)
    returns (r: Response<Row<ServicesPageSettings>>)
    modifies t
    ensures var (o, rows) := Singleton.Patch(old(t.rows), session, fault, body, Create, Update, stamp);
      t.rows == rows && r == Respond(o, "Unauthorized", UpdateFailure)
  {
    var o := ServePatch(t, session, fault, body, Create, Update, stamp);
    r := Respond(o, "Unauthorized", UpdateFailure);
  }

  /** The literal document GET creates is the one the schema defaults give for an
      empty body. */
  lemma SeedIsDefaults()
    ensures Create(Seed()) == Create(ServicesPageSettings(Absent, Absent)) == Ok(Seed())
  {
  }

  /** With a session and a stored document, a PATCH never fails and never adds a
      second document. */
  lemma PatchAlwaysUpdates(rows: seq<Row<ServicesPageSettings>>, body: ServicesPageSettings, stamp: Stamp)
    requires rows != []
    ensures Singleton.Patch(rows, true, None, body, Create, Update, stamp).0.Served?
    ensures |Singleton.Patch(rows, true, None, body, Create, Update, stamp).1| == |rows|
  {
  }
}
