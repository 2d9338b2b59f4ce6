/** app/api/settings/route.ts: GET creates the site settings from literal values when
    none exist; PATCH creates them from the body, or assigns each path the body gives
    to the stored document and saves it. */
module SettingsRoute {
  import opened Common
  import opened Store
  import opened Schema
  import opened Singleton
  import opened SiteSettingsModel

  /** The document GET creates; every one of the sixteen paths is given. */
  function Seed(): SiteSettings {
    SiteSettings(
      Present("https://images.unsplash.com/photo-1534528741775-53994a69daeb?w=400"),
      Present("Professional Modeling Services"),
      Present("Elevate your brand with experienced, versatile modeling for fashion, events, and content creation."),
      Present(HeroLink(Present("Order Service"), Present("/services"))),
      Present("Our Services"),
      Present("No services available yet. Check back soon!"),
      Present("Contact Us"),
      Present("/contact"),
      Present("Portfolio"),
      Present("Ready to Work Together?"),
      Present("Let's create something amazing. Get in touch to discuss your project."),
      Present([CtaButton(Present("View Services"), Present("/services"), Present("primary"), Present(1)),
               CtaButton(Present("Contact Us"), Present("/contact"), Present("secondary"), Present(2))]),
      Present("About Me"),
      Present("Professional Model & Content Creator"),
      Present("Our Services"),
      Present("Professional modeling services tailored to your needs"))
  }

  /** What `existingSettings.x = x` stores for each given path: the value itself, with
      the buttons cast by their sub-schema. */
  function Assigned(body: SiteSettings): SiteSettings {
    body.(ctaButtons := CastButtons(body.ctaButtons))
  }

  /** The stored document after the sixteen guarded assignments: a path the body
      gives (even as `null`) replaces the stored one, any other stays. */
  function MergeGiven(stored: SiteSettings, body: SiteSettings): (r: SiteSettings)
    ensures forall k: Key :: At(r, k) == if Missing(At(body, k)) then At(stored, k) else At(Assigned(body), k)
  {
    SiteSettings(
      Overwrite(stored.heroImage, body.heroImage),
      Overwrite(stored.heroTitle, body.heroTitle),
      Overwrite(stored.heroSubtitle, body.heroSubtitle),
      Overwrite(stored.heroButton, body.heroButton),
      Overwrite(stored.servicesTitle, body.servicesTitle),
      Overwrite(stored.noServicesMessage, body.noServicesMessage),
      Overwrite(stored.noServicesButtonLabel, body.noServicesButtonLabel),
      Overwrite(stored.noServicesButtonUrl, body.noServicesButtonUrl),
      Overwrite(stored.portfolioTitle, body.portfolioTitle),
      Overwrite(stored.ctaTitle, body.ctaTitle),
      Overwrite(stored.ctaDescription, body.ctaDescription),
      Overwrite(stored.ctaButtons, CastButtons(body.ctaButtons)),
      Overwrite(stored.aboutPageTitle, body.aboutPageTitle),
      Overwrite(stored.aboutPageSubtitle, body.aboutPageSubtitle),
      Overwrite(stored.servicesPageTitle, body.servicesPageTitle),
      Overwrite(stored.servicesPageSubtitle, body.servicesPageSubtitle))
  }

  /** The assignments one by one, as the handler makes them on the loaded document;
      `Overwrite` is the `if (x !== undefined)` guard of each. */
  method AssignGiven(stored: SiteSettings, body: SiteSettings) returns (d: SiteSettings)
    ensures d == MergeGiven(stored, body)
  {
    d := stored;
    d := d.(heroImage := Overwrite(d.heroImage, body.heroImage));
    d := d.(heroTitle := Overwrite(d.heroTitle, body.heroTitle));
    d := d.(heroSubtitle := Overwrite(d.heroSubtitle, body.heroSubtitle));
    d := d.(heroButton := Overwrite(d.heroButton, body.heroButton));
    d := d.(servicesTitle := Overwrite(d.servicesTitle, body.servicesTitle));
    d := d.(noServicesMessage := Overwrite(d.noServicesMessage, body.noServicesMessage));
    d := d.(noServicesButtonLabel := Overwrite(d.noServicesButtonLabel, body.noServicesButtonLabel));
    d := d.(noServicesButtonUrl := Overwrite(d.noServicesButtonUrl, body.noServicesButtonUrl));
    d := d.(portfolioTitle := Overwrite(d.portfolioTitle, body.portfolioTitle));
    d := d.(ctaTitle := Overwrite(d.ctaTitle, body.ctaTitle));
    d := d.(ctaDescription := Overwrite(d.ctaDescription, body.ctaDescription));
    d := d.(ctaButtons := Overwrite(d.ctaButtons, CastButtons(body.ctaButtons)));
    d := d.(aboutPageTitle := Overwrite(d.aboutPageTitle, body.aboutPageTitle));
    d := d.(aboutPageSubtitle := Overwrite(d.aboutPageSubtitle, body.aboutPageSubtitle));
    d := d.(servicesPageTitle := Overwrite(d.servicesPageTitle, body.servicesPageTitle));
    d := d.(servicesPageSubtitle := Overwrite(d.servicesPageSubtitle, body.servicesPageSubtitle));
  }

  /** `existingSettings.save()` validates the whole merged document. */
  function Update(stored: SiteSettings, body: SiteSettings): (r: Result<SiteSettings>)
    ensures r.Ok? ==> Valid(r.value) && r.value == MergeGiven(stored, body)
  {
    var d := MergeGiven(stored, body);
    if Valid(d) then Ok(d) else Err(ValidationError("SiteSettings"))
  }

  function FetchFailure(e: Thrown): string { "Failed to fetch settings" }

  function UpdateFailure(e: Thrown): string { "Failed to update settings" }

  /** GET: no session needed. */
  method Get(t: Table<SiteSettings>, fault: Option<Thrown>, stamp: Stamp) returns (r: Response<Row<SiteSettings>>)
    modifies t
    ensures var (o, rows) := Singleton.Get(old(t.rows), fault, Create(Seed()), stamp);
      t.rows == rows && r == Respond(o, "Unauthorized", FetchFailure)
  {
    var o := ServeGet(t, fault, Create(Seed()), stamp);
    r := Respond(o, "Unauthorized", FetchFailure);
  }

  /** PATCH (admin only). */
  method Patch(t: Table<SiteSettings>, session: bool, fault: Option<Thrown>, body: SiteSettings, stamp: Stamp)
    returns (r: Response<Row<SiteSettings>>)
    modifies t
    ensures var (o, rows) := Singleton.Patch(old(t.rows), session, fault, body, Create, Update, stamp);
      t.rows == rows && r == Respond(o, "Unauthorized", UpdateFailure)
  {
    if !session {
      return Fail(401, "Unauthorized");
    }
    if fault.Some? {
      return Fail(500, "Failed to update settings");
    }
    var existing := t.FindOne();
    if existing.None? {
      match Create(body) {
        case Err(e) =>
          r := Fail(500, "Failed to update settings");
        case Ok(d) =>
          var row := t.Insert(d, stamp);
          assert t.rows == [row];
          r := Response(200, Success(row));
      }
    } else {
      var row := existing.value;
      var d := AssignGiven(row.doc, body);
      if Valid(d) {
        t.Save(row.id, d);
        r := Response(200, Success(row.(doc := d)));
      } else {
        r := Fail(500, "Failed to update settings");
      }
    }
  }

  /** The literal document GET creates is exactly what the schema defaults give, so
      it is accepted and stored as written. */
  lemma SeedIsDefaults()
    ensures Create(Seed()).Ok?
    ensures Create(Seed()) == Create(Empty())
    ensures Create(Seed()).value == Seed()
  {
    DefaultButtonsValid();
    assert Cast(Empty()).ctaButtons == Present(DefaultCtaButtons());
    assert Seed().ctaButtons == Present(DefaultCtaButtons());
    var c := CastButtons(Seed().ctaButtons);
    assert c.value[0] == DefaultCtaButtons()[0] && c.value[1] == DefaultCtaButtons()[1];
    assert c.value == DefaultCtaButtons();
    assert Cast(Seed()) == Seed();
    EqualAt(Cast(Empty()), Seed());
  }

  /** On an empty collection GET stores the one default document and returns it with
      status 200; on a non-empty one it returns the first document and writes
      nothing. */
  lemma GetBootstrapsDefaults(rows: seq<Row<SiteSettings>>, stamp: Stamp)
    ensures rows == [] ==>
      (Singleton.Get(rows, None, Create(Seed()), stamp)
       == (Served(Row(stamp.id, stamp.at, Seed())), [Row(stamp.id, stamp.at, Seed())]))
    ensures rows != [] ==> Singleton.Get(rows, None, Create(Seed()), stamp) == (Served(rows[0]), rows)
  {
    SeedIsDefaults();
  }

  /** An accepted PATCH of a stored document changes exactly the paths the body gives;
      a `null` it gives is stored as `null`. */
  lemma PatchChangesGivenPaths(stored: SiteSettings, body: SiteSettings, k: Key)
    requires Update(stored, body).Ok?
    ensures Missing(At(body, k)) ==> At(Update(stored, body).value, k) == At(stored, k)
    ensures k != CtaButtons && !Missing(At(body, k)) ==> At(Update(stored, body).value, k) == At(body, k)
    ensures At(body, k) == Text(Null) ==> At(Update(stored, body).value, k) == Text(Null)
  {
  }

  /** Setting `heroImage` to `null` or "" makes the save fail, whatever else is given. */
  lemma PatchRefusesEmptyHeroImage(stored: SiteSettings, body: SiteSettings)
    requires body.heroImage.Null? || body.heroImage == Present("")
    ensures Update(stored, body).Err?
  {
  }
}
