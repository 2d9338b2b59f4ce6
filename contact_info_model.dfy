/** `ContactInfoSchema` and `SocialMediaSchema` (models/ContactInfo.ts): the contact
    page. */
module ContactInfoModel {
  import opened Common
  import opened Schema

  const DefaultHeaderTitle := "Get In Touch"
  const DefaultHeaderSubtitle := "Let's discuss how we can work together"
  const DefaultWeekday := "Monday - Friday: 9AM - 6PM EST"
  const DefaultWeekend := "Weekend: By Appointment"
  const DefaultCopyright := "All content, photographs, videos, and materials created during our collaboration remain the intellectual property of ModelPro."
  const DefaultRefundPolicy := "All services are final sale. Once a service has been booked and scheduled, no refunds will be issued."
  const DefaultServiceAgreement := "By requesting a service, you agree to our terms and conditions. All projects require a signed agreement before work begins."
  const DefaultPrivacy := "We respect your privacy and maintain confidentiality of all client information."

  datatype SocialMedia = SocialMedia(name: Field<string>, url: Field<string>, icon: Field<string>)

  /** The nested `businessHours` path. */
  datatype Hours = Hours(weekday: Field<string>, weekend: Field<string>)

  /** The nested `legalTerms` path. */
  datatype Legal = Legal(copyright: Field<string>, refundPolicy: Field<string>, serviceAgreement: Field<string>, privacy: Field<string>)

  datatype ContactInfo = ContactInfo(
    headerTitle: Field<string>,
    headerSubtitle: Field<string>,
    email: Field<string>,
    phone: Field<string>,
    location: Field<string>,
    businessHours: Field<Hours>,
    socialMedia: Field<seq<SocialMedia>>,
    legalTerms: Field<Legal>)

  predicate ValidSocial(m: SocialMedia) {
    RequiredText(m.name) && RequiredText(m.url) && RequiredText(m.icon)
  }

  /** The nested `businessHours` on create: each sub-path takes its default when not given. */
  function CastHours(f: Field<Hours>): Field<Hours> {
    match f
    case Absent => Present(Hours(Present(DefaultWeekday), Present(DefaultWeekend)))
    case Null => Null
    case Present(h) => Present(Hours(WithDefault(h.weekday, DefaultWeekday), WithDefault(h.weekend, DefaultWeekend)))
  }

  /** The nested `legalTerms` on create: each sub-path takes its default when not given. */
  function CastLegal(f: Field<Legal>): Field<Legal> {
    match f
    case Absent => Present(Legal(Present(DefaultCopyright), Present(DefaultRefundPolicy), Present(DefaultServiceAgreement), Present(DefaultPrivacy)))
    case Null => Null
    case Present(l) => Present(Legal(
      WithDefault(l.copyright, DefaultCopyright), WithDefault(l.refundPolicy, DefaultRefundPolicy),
      WithDefault(l.serviceAgreement, DefaultServiceAgreement), WithDefault(l.privacy, DefaultPrivacy)))
  }

  /** Casting on create. */
  function Cast(b: ContactInfo): ContactInfo {
    ContactInfo(
      WithDefault(b.headerTitle, DefaultHeaderTitle),
      WithDefault(b.headerSubtitle, DefaultHeaderSubtitle),
      b.email, b.phone, b.location,
      CastHours(b.businessHours),
      WithDefault(b.socialMedia, []),
      CastLegal(b.legalTerms))
  }

  predicate Valid(c: ContactInfo) {
    RequiredText(c.email) && RequiredText(c.phone) && RequiredText(c.location)
    && Each(c.socialMedia, ValidSocial)
  }

  /** `ContactInfo.create(body)` */
  function Create(b: ContactInfo): (r: Result<ContactInfo>)
    ensures r.Ok? ==> Valid(r.value)
    ensures r.Ok? ==> r.value == Cast(b)
    ensures r.Err? ==> r.error == ValidationError("ContactInfo") && !Valid(Cast(b))
  {
    var d := Cast(b);
    if Valid(d) then Ok(d) else Err(ValidationError("ContactInfo"))
  }

  /** `findByIdAndUpdate(id, body, { runValidators: true })`: each path the body gives
      is validated and replaces the stored one (a nested object as a whole); the other
      paths are kept. */
  function Update(stored: ContactInfo, b: ContactInfo): (r: Result<ContactInfo>)
    ensures r.Ok? ==> Valid(stored) ==> Valid(r.value)
    ensures r.Err? ==> r.error == ValidationError("ContactInfo")
  {
    if GivenOk(b.email, RequiredText) && GivenOk(b.phone, RequiredText) && GivenOk(b.location, RequiredText)
       && Each(b.socialMedia, ValidSocial)
    then
      Ok(ContactInfo(
        Overwrite(stored.headerTitle, b.headerTitle),
        Overwrite(stored.headerSubtitle, b.headerSubtitle),
        Overwrite(stored.email, b.email),
        Overwrite(stored.phone, b.phone),
        Overwrite(stored.location, b.location),
        Overwrite(stored.businessHours, b.businessHours),
        Overwrite(stored.socialMedia, b.socialMedia),
        Overwrite(stored.legalTerms, b.legalTerms)))
    else Err(ValidationError("ContactInfo"))
  }

  /** A body is accepted exactly when it gives the three required texts, not empty,
      and every social link has a name, url and icon. */
  lemma CreateAcceptsIff(b: ContactInfo)
    ensures Create(b).Ok? <==>
      (RequiredText(b.email) && RequiredText(b.phone) && RequiredText(b.location)
       && Each(b.socialMedia, ValidSocial))
  {
  }

  /** What a create with no header, hours or legal terms stores: the literal defaults. */
  lemma CreateDefaults(b: ContactInfo)
    requires Create(b).Ok?
    ensures var d := Create(b).value;
      (b.headerTitle.Absent? ==> d.headerTitle == Present(DefaultHeaderTitle))
      && (b.headerSubtitle.Absent? ==> d.headerSubtitle == Present(DefaultHeaderSubtitle))
      && (b.businessHours.Absent? ==> d.businessHours == Present(Hours(Present(DefaultWeekday), Present(DefaultWeekend))))
      && (b.legalTerms.Absent? ==>
            d.legalTerms == Present(Legal(Present(DefaultCopyright), Present(DefaultRefundPolicy),
                                          Present(DefaultServiceAgreement), Present(DefaultPrivacy))))
      && d.email == b.email && d.phone == b.phone && d.location == b.location
  {
    assert Create(b).value == Cast(b);
  }

  /** An update keeps every path the body leaves out and takes every path it gives,
      `null` included; it is refused exactly when it sets a required text to `null`
      or "" or gives an incomplete social link. */
  lemma UpdateKeepsMissing(stored: ContactInfo, b: ContactInfo)
    ensures Update(stored, b).Err? <==>
      ((b.email.Null? || b.email == Present("")) || (b.phone.Null? || b.phone == Present(""))
       || (b.location.Null? || b.location == Present("")) || !Each(b.socialMedia, ValidSocial))
    ensures Update(stored, b).Ok? ==> var d := Update(stored, b).value;
      (b.headerTitle.Absent? ==> d.headerTitle == stored.headerTitle) && (!b.headerTitle.Absent? ==> d.headerTitle == b.headerTitle)
      && (b.headerSubtitle.Absent? ==> d.headerSubtitle == stored.headerSubtitle) && (!b.headerSubtitle.Absent? ==> d.headerSubtitle == b.headerSubtitle)
      && (b.email.Absent? ==> d.email == stored.email) && (!b.email.Absent? ==> d.email == b.email)
      && (b.phone.Absent? ==> d.phone == stored.phone) && (!b.phone.Absent? ==> d.phone == b.phone)
      && (b.location.Absent? ==> d.location == stored.location) && (!b.location.Absent? ==> d.location == b.location)
      && (b.businessHours.Absent? ==> d.businessHours == stored.businessHours) && (!b.businessHours.Absent? ==> d.businessHours == b.businessHours)
      && (b.socialMedia.Absent? ==> d.socialMedia == stored.socialMedia) && (!b.socialMedia.Absent? ==> d.socialMedia == b.socialMedia)
      && (b.legalTerms.Absent? ==> d.legalTerms == stored.legalTerms) && (!b.legalTerms.Absent? ==> d.legalTerms == b.legalTerms)
  {
  }
}
