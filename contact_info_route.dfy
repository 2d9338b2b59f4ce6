/** app/api/contact-info/route.ts: GET creates the contact information from literal
    values when none exists; PATCH creates it from the body, or updates the stored
    document by its id. */
module ContactInfoRoute {
  import opened Common
  import opened Store
  import opened Singleton
  import opened ContactInfoModel

  /** The legal texts GET stores, longer than the schema's defaults. */
  const SeedCopyright := "All content, photographs, videos, and materials created during our collaboration remain the intellectual property of ModelPro. The customer may not republish, redistribute, or resell any content without explicit written permission."
  const SeedRefundPolicy := "All services are final sale. Once a service has been booked and scheduled, no refunds will be issued. In case of cancellation, credits may be offered for future services at our discretion."
  const SeedServiceAgreement := "By requesting a service, you agree to our terms and conditions. All projects require a signed agreement before work begins. Payment terms and schedules will be outlined in the service agreement."
  const SeedPrivacy := "We respect your privacy and maintain confidentiality of all client information. Personal data is protected in accordance with applicable privacy laws."

  /** The five social links GET creates. */
  function SeedSocial(): seq<SocialMedia> {
    [SocialMedia(Present("Facebook"), Present("https://facebook.com"), Present("\U{1F4D8}")),
     SocialMedia(Present("Instagram"), Present("https://instagram.com"), Present("\U{1F4F7}")),
     SocialMedia(Present("LinkedIn"), Present("https://linkedin.com"), Present("\U{1F4BC}")),
     SocialMedia(Present("Twitter"), Present("https://twitter.com"), Present("\U{1F426}")),
     SocialMedia(Present("TikTok"), Present("https://tiktok.com"), Present("\U{1F3B5}"))]
  }

  /** The document GET creates. */
  function Seed(): ContactInfo {
    ContactInfo(
      Present("Get In Touch"),
      Present("Let's discuss how we can work together"),
      Present("contact@modelpro.com"),
      Present("+1 (555) 123-4567"),
      Present("New York, NY"),
      Present(Hours(Present("Monday - Friday: 9AM - 6PM EST"), Present("Weekend: By Appointment"))),
      Present(SeedSocial()),
      Present(Legal(
        Present(SeedCopyright),
        Present(SeedRefundPolicy),
        Present(SeedServiceAgreement),
        Present(SeedPrivacy))))
  }

  function FetchFailure(e: Thrown): string { "Failed to fetch contact info" }

  function UpdateFailure(e: Thrown): string { "Failed to update contact info" }

  method Get(t: Table<ContactInfo>, fault: Option<Thrown>, stamp: Stamp) returns (r: Response<Row<ContactInfo>>)
    modifies t
    ensures var (o, rows) := Singleton.Get(old(t.rows), fault, Create(Seed()), stamp);
      t.rows == rows && r == Respond(o, "Unauthorized", FetchFailure)
  {
    var o := ServeGet(t, fault, Create(Seed()), stamp);
    r := Respond(o, "Unauthorized", FetchFailure);
  }

  method Patch(t: Table<ContactInfo>, session: bool, fault: Option<Thrown>, body: ContactInfo, stamp: Stamp)
    returns (r: Response<Row<ContactInfo>>)
    modifies t
    ensures var (o, rows) := Singleton.Patch(old(t.rows), session, fault, body, Create, Update, stamp);
      t.rows == rows && r == Respond(o, "Unauthorized", UpdateFailure)
  {
    var o := ServePatch(t, session, fault, body, Create, Update, stamp);
    r := Respond(o, "Unauthorized", UpdateFailure);
  }

  /** The literal document is accepted and stored exactly as written, with its five
      social links in order. */
  lemma SeedAccepted()
    ensures Create(Seed()).Ok? && Create(Seed()).value == Seed()
    ensures |Create(Seed()).value.socialMedia.value| == 5
    ensures Create(Seed()).value.socialMedia.value[0].name == Present("Facebook")
    ensures Create(Seed()).value.socialMedia.value[4].name == Present("TikTok")
  {
    var s := SeedSocial();
    assert ValidSocial(s[0]) && ValidSocial(s[1]) && ValidSocial(s[2]) && ValidSocial(s[3]) && ValidSocial(s[4]);
    assert Cast(Seed()) == Seed();
  }

  /** On an empty collection a GET stores the literal document; afterwards GET returns
      the first document and writes nothing. */
  lemma GetBootstrapsSeed(rows: seq<Row<ContactInfo>>, stamp: Stamp)
    ensures rows == [] ==>
      Singleton.Get(rows, None, Create(Seed()), stamp).1 == [Row(stamp.id, stamp.at, Seed())]
    ensures rows != [] ==> Singleton.Get(rows, None, Create(Seed()), stamp) == (Served(rows[0]), rows)
  {
    SeedAccepted();
  }
}
