/** `FooterSettingsSchema` and `QuickLinkSchema` (models/FooterSettings.ts): the site
    footer. */
module FooterSettingsModel {
  import opened Common
  import opened Schema

  const DefaultBrandName := "ModelPro"
  const DefaultBrandDescription := "Professional modeling services for brands, events, and content creation."
  const DefaultContactEmail := "contact@modelpro.com"
  const DefaultContactPhone := "+1 (555) 123-4567"
  const DefaultContactLocation := "New York, NY"
  const DefaultCopyrightText := "ModelPro. All rights reserved."

  /** One footer link; its `label` is `labelText` here (`label` is a reserved word in
      Dafny). */
  datatype QuickLink = QuickLink(labelText: Field<string>, url: Field<string>)

  datatype FooterSettings = FooterSettings(
    brandName: Field<string>,
    brandDescription: Field<string>,
    quickLinks: Field<seq<QuickLink>>,
    contactEmail: Field<string>,
    contactPhone: Field<string>,
    contactLocation: Field<string>,
    copyrightText: Field<string>)

  predicate ValidLink(q: QuickLink) {
    RequiredText(q.labelText) && RequiredText(q.url)
  }

  /** Casting on create: every text path not given takes its default. */
  function Cast(b: FooterSettings): FooterSettings {
    FooterSettings(
      WithDefault(b.brandName, DefaultBrandName),
      WithDefault(b.brandDescription, DefaultBrandDescription),
      WithDefault(b.quickLinks, []),
      WithDefault(b.contactEmail, DefaultContactEmail),
      WithDefault(b.contactPhone, DefaultContactPhone),
      WithDefault(b.contactLocation, DefaultContactLocation),
      WithDefault(b.copyrightText, DefaultCopyrightText))
  }

  predicate Valid(f: FooterSettings) {
    Each(f.quickLinks, ValidLink)
  }

  /** `FooterSettings.create(body)` */
  function Create(b: FooterSettings): (r: Result<FooterSettings>)
    ensures r.Ok? ==> Valid(r.value)
    ensures r.Ok? ==> r.value == Cast(b)
    ensures r.Err? ==> r.error == ValidationError("FooterSettings") && !Valid(Cast(b))
  {
    var d := Cast(b);
    if Valid(d) then Ok(d) else Err(ValidationError("FooterSettings"))
  }

  /** `findByIdAndUpdate(id, body, { runValidators: true })` */
  function Update(stored: FooterSettings, b: FooterSettings): (r: Result<FooterSettings>)
    ensures r.Ok? ==> Valid(stored) ==> Valid(r.value)
    ensures r.Err? ==> r.error == ValidationError("FooterSettings")
  {
    if Each(b.quickLinks, ValidLink) then
      Ok(FooterSettings(
        Overwrite(stored.brandName, b.brandName),
        Overwrite(stored.brandDescription, b.brandDescription),
        Overwrite(stored.quickLinks, b.quickLinks),
        Overwrite(stored.contactEmail, b.contactEmail),
        Overwrite(stored.contactPhone, b.contactPhone),
        Overwrite(stored.contactLocation, b.contactLocation),
        Overwrite(stored.copyrightText, b.copyrightText)))
    else Err(ValidationError("FooterSettings"))
  }

  /** Only the quick links can make a create or an update fail: one without a label
      or url. */
  lemma AcceptsIff(stored: FooterSettings, b: FooterSettings)
    ensures Create(b).Ok? <==> Each(b.quickLinks, ValidLink)
    ensures Update(stored, b).Ok? <==> Each(b.quickLinks, ValidLink)
  {
  }

  /** What a create stores for the paths not given: the literal defaults. */
  lemma CreateDefaults(b: FooterSettings)
    requires Create(b).Ok?
    ensures var d := Create(b).value;
      (b.brandName.Absent? ==> d.brandName == Present(DefaultBrandName))
      && (b.brandDescription.Absent? ==> d.brandDescription == Present(DefaultBrandDescription))
      && (b.contactEmail.Absent? ==> d.contactEmail == Present(DefaultContactEmail))
      && (b.contactPhone.Absent? ==> d.contactPhone == Present(DefaultContactPhone))
      && (b.contactLocation.Absent? ==> d.contactLocation == Present(DefaultContactLocation))
      && (b.copyrightText.Absent? ==> d.copyrightText == Present(DefaultCopyrightText))
      && (b.quickLinks.Absent? ==> d.quickLinks == Present([]))
  {
    assert Create(b).value == Cast(b);
  }

  /** An accepted update keeps every path the body leaves out and replaces the others. */
  lemma UpdateKeepsMissing(stored: FooterSettings, b: FooterSettings)
    requires Update(stored, b).Ok?
    ensures var d := Update(stored, b).value;
      (b.brandName.Absent? ==> d.brandName == stored.brandName) && (!b.brandName.Absent? ==> d.brandName == b.brandName)
      && (b.brandDescription.Absent? ==> d.brandDescription == stored.brandDescription) && (!b.brandDescription.Absent? ==> d.brandDescription == b.brandDescription)
      && (b.quickLinks.Absent? ==> d.quickLinks == stored.quickLinks) && (!b.quickLinks.Absent? ==> d.quickLinks == b.quickLinks)
      && (b.contactEmail.Absent? ==> d.contactEmail == stored.contactEmail) && (!b.contactEmail.Absent? ==> d.contactEmail == b.contactEmail)
      && (b.contactPhone.Absent? ==> d.contactPhone == stored.contactPhone) && (!b.contactPhone.Absent? ==> d.contactPhone == b.contactPhone)
      && (b.contactLocation.Absent? ==> d.contactLocation == stored.contactLocation) && (!b.contactLocation.Absent? ==> d.contactLocation == b.contactLocation)
      && (b.copyrightText.Absent? ==> d.copyrightText == stored.copyrightText) && (!b.copyrightText.Absent? ==> d.copyrightText == b.copyrightText)
  {
  }
}
