/** app/page.tsx: what the home page loads from the store, and the fallbacks and
    orderings it renders with. */
module HomePage {
  import opened Common
  import opened Lists
  import opened Sorting
  import opened Store
  import opened Singleton
  import opened Collection
  import ServiceModel
  import PortfolioModel
  import PortfolioRoute
  import opened SiteSettingsModel
  import SettingsRoute

  /** `getLatestServices`: the six newest services, or none when the store throws. */
  function LatestServices(rows: seq<Row<ServiceModel.Service>>, fault: Option<Thrown>): (r: seq<Row<ServiceModel.Service>>)
    ensures fault.Some? ==> r == []
    ensures fault.None? ==> |r| == if |rows| < 6 then |rows| else 6
  {
    if fault.Some? then []
    else
      var sorted := Newest(rows);
      if |sorted| <= 6 then sorted else sorted[..6]
  }

  /** The services shown are stored ones, newest first, and none left out is newer than
      one shown. */
  lemma LatestAreNewest(rows: seq<Row<ServiceModel.Service>>)
    ensures var r := LatestServices(rows, None);
      (forall i :: 0 <= i < |r| ==> r[i] in rows)
      && (forall i, j :: 0 <= i < j < |r| ==> r[i].createdAt >= r[j].createdAt)
      && (forall i, j :: 0 <= i < |r| && |r| <= j < |rows| ==> r[i].createdAt >= Newest(rows)[j].createdAt)
      && r == Newest(rows)[..|r|]
  {
    var sorted := Newest(rows);
    var r := LatestServices(rows, None);
    forall i | 0 <= i < |r|
      ensures r[i] in rows
    {
      assert r[i] == sorted[i];
      assert sorted[i] in multiset(rows);
    }
  }

  function ImageUrl(row: Row<PortfolioModel.Portfolio>): Field<string> {
    row.doc.imageUrl
  }

  /** `getPortfolioImages`: the image URLs in gallery order, or none when the store
      throws. */
  function PortfolioImages(rows: seq<Row<PortfolioModel.Portfolio>>, fault: Option<Thrown>): (r: seq<Field<string>>)
    ensures fault.Some? ==> r == []
    ensures fault.None? ==> |r| == |rows|
  {
    if fault.Some? then [] else Map(PortfolioRoute.Gallery(rows), ImageUrl)
  }

  /** The URLs are those of the stored images, each as often as it is stored, in
      ascending order, newest first among images with the same order. */
  lemma PortfolioImagesOrdered(rows: seq<Row<PortfolioModel.Portfolio>>)
    ensures var g := PortfolioRoute.Gallery(rows);
      PortfolioImages(rows, None) == Map(g, ImageUrl)
      && multiset(g) == multiset(rows)
      && (forall i, j :: 0 <= i < j < |g| ==> PortfolioRoute.OrderAtMost(g[i].doc.order, g[j].doc.order))
      && multiset(PortfolioImages(rows, None)) == multiset(Map(rows, ImageUrl))
  {
    MapPermutes(PortfolioRoute.Gallery(rows), rows, ImageUrl);
  }

  function DefaultImages(): seq<Field<string>> {
    [Present("https://images.unsplash.com/photo-1469334031218-e382a71b716b?w=500"),
     Present("https://images.unsplash.com/photo-1483985988355-763728e1935b?w=500"),
     Present("https://images.unsplash.com/photo-1490481651871-ab68de25d43d?w=500"),
     Present("https://images.unsplash.com/photo-1445205170230-053b83016050?w=500")]
  }

  /** The gallery shows the four stock images exactly when there is no portfolio
      image, and otherwise the portfolio images. */
  function DisplayImages(images: seq<Field<string>>): (r: seq<Field<string>>)
    ensures r == DefaultImages() <==> images == [] || images == DefaultImages()
    ensures images != [] ==> r == images
  {
    if |images| > 0 then images else DefaultImages()
  }

  /** The document `getSiteSettings` creates, and the object it returns when the store
      throws (the two literals are the same). It has no page-title paths. */
  function HomeDefaults(): SiteSettings {
    SiteSettings(
      Present("https://images.unsplash.com/photo-1534528741775-53994a69daeb?w=400"),
      Present("Professional Modeling Services"),
      Present("Elevate your brand with experienced, versatile modeling for fashion, events, and content creation."),
      Present(HeroLink(Present("Order Service"), Present("/services"))),
      Present("Our Services"),
      Present("No services available yet. Check back soon!"),
      Present("Contact Us"),
      Present("/contact"),
      Present("Portfolio"),
      Present("Ready to Work Together?"),
      Present("Let's create something amazing. Get in touch to discuss your project."),
      Present([CtaButton(Present("View Services"), Present("/services"), Present("primary"), Present(1)),
               CtaButton(Present("Contact Us"), Present("/contact"), Present("secondary"), Present(2))]),
      Absent, Absent, Absent, Absent)
  }

  /** `getSiteSettings`: the first document, created from `HomeDefaults` when there is
      none; when the store throws, `HomeDefaults` itself and nothing written. */
  method GetSiteSettings(t: Table<SiteSettings>, fault: Option<Thrown>, stamp: Stamp) returns (s: SiteSettings)
    modifies t
    ensures var (o, rows) := Singleton.Get(old(t.rows), fault, Create(HomeDefaults()), stamp);
      t.rows == rows && s == (if o.Served? then o.row.doc else HomeDefaults())
  {
    var o := ServeGet(t, fault, Create(HomeDefaults()), stamp);
    s := if o.Served? then o.row.doc else HomeDefaults();
  }

  /** Once the schema fills in the four page-title paths, the document the home page
      creates is the one the settings route creates, so it does not matter which of
      the two first meets an empty store. */
  lemma HomeSeedMatchesRoute()
    ensures Create(HomeDefaults()) == Create(SettingsRoute.Seed())
    ensures Create(HomeDefaults()) == Ok(SettingsRoute.Seed())
  {
    SettingsRoute.SeedIsDefaults();
    var c := CastButtons(HomeDefaults().ctaButtons);
    assert c.value[0] == DefaultCtaButtons()[0] && c.value[1] == DefaultCtaButtons()[1];
    assert c.value == DefaultCtaButtons();
    EqualAt(Cast(HomeDefaults()), SettingsRoute.Seed());
  }

  /** A rendered call-to-action link. */
  datatype CtaLink = CtaLink(url: Field<string>, labelText: Field<string>, primary: bool)

  function LinkOf(c: CtaButton): CtaLink {
    CtaLink(c.url, c.labelText, c.style == Present("primary"))
  }

  /** `a.order - b.order` as a comparator: a `null` order counts as 0. */
  function OrderKey(c: CtaButton): int {
    if c.order.Present? then c.order.value else 0
  }

  predicate ByOrder(a: CtaButton, b: CtaButton) {
    OrderKey(a) <= OrderKey(b)
  }

  lemma ByOrderPreorder()
    ensures TotalPreorder(ByOrder)
  {
  }

  /** The two links shown when there is no button. */
  function FixedLinks(): seq<CtaLink> {
    [CtaLink(Present("/services"), Present("View Services"), true),
     CtaLink(Present("/contact"), Present("Contact Us"), false)]
  }

  /** The links of the call-to-action section. */
  function CtaLinks(s: SiteSettings): (r: seq<CtaLink>)
    ensures !(s.ctaButtons.Present? && s.ctaButtons.value != []) ==> r == FixedLinks()
    ensures s.ctaButtons.Present? && s.ctaButtons.value != [] ==> |r| == |s.ctaButtons.value|
  {
    if s.ctaButtons.Present? && |s.ctaButtons.value| > 0 then Map(Sort(s.ctaButtons.value, ByOrder), LinkOf)
    else FixedLinks()
  }

  /** The buttons are shown in ascending order, every one of them once. */
  lemma CtaLinksOrdered(s: SiteSettings)
    requires s.ctaButtons.Present? && s.ctaButtons.value != []
    ensures var sorted := Sort(s.ctaButtons.value, ByOrder);
      CtaLinks(s) == Map(sorted, LinkOf)
      && multiset(sorted) == multiset(s.ctaButtons.value)
      && forall i, j :: 0 <= i < j < |sorted| ==> OrderKey(sorted[i]) <= OrderKey(sorted[j])
  {
    ByOrderPreorder();
    SortSorted(s.ctaButtons.value, ByOrder);
  }

  /** The section as the page builds it: `ctaButtons.sort(...)` in place, then one
      link per button. */
  method RenderCta(s: SiteSettings) returns (links: seq<CtaLink>)
    ensures links == CtaLinks(s)
  {
    if !(s.ctaButtons.Present? && |s.ctaButtons.value| > 0) {
      return FixedLinks();
    }
    var buttons := s.ctaButtons.value;
    var a := new CtaButton[|buttons|](i requires 0 <= i < |buttons| => buttons[i]);
    assert a[..] == buttons;
    SortInPlace(a, ByOrder);
    links := Map(a[..], LinkOf);
  }

  /** The texts of the page, each the stored value or its literal default. */
  datatype Texts = Texts(
    heroTitle: string, heroSubtitle: string, heroButtonUrl: string, heroButtonLabel: string,
    servicesTitle: string, noServicesMessage: string, noServicesButtonUrl: string,
    noServicesButtonLabel: string, portfolioTitle: string, ctaTitle: string, ctaDescription: string)

  /** `heroButton?.x || fallback` */
  function HeroText(f: Field<HeroLink>, url: bool, fallback: string): string {
    if f.Present? then TextOr(if url then f.value.url else f.value.labelText, fallback) else fallback
  }

  function PageTexts(s: SiteSettings): Texts {
    Texts(
      TextOr(s.heroTitle, DefaultHeroTitle),
      TextOr(s.heroSubtitle, DefaultHeroSubtitle),
      HeroText(s.heroButton, true, DefaultHeroButtonUrl),
      HeroText(s.heroButton, false, DefaultHeroButtonLabel),
      TextOr(s.servicesTitle, DefaultServicesTitle),
      TextOr(s.noServicesMessage, DefaultNoServicesMessage),
      TextOr(s.noServicesButtonUrl, DefaultNoServicesButtonUrl),
      TextOr(s.noServicesButtonLabel, DefaultNoServicesButtonLabel),
      TextOr(s.portfolioTitle, DefaultPortfolioTitle),
      TextOr(s.ctaTitle, DefaultCtaTitle),
      TextOr(s.ctaDescription, DefaultCtaDescription))
  }

  /** The page's fallbacks are the schema's defaults: a document with nothing in it, an
      empty one of any value, the fallback object and the stored default all read the
      same. */
  lemma FallbacksAreDefaults()
    ensures PageTexts(Empty()) == PageTexts(HomeDefaults())
    ensures PageTexts(Cast(Empty())) == PageTexts(HomeDefaults())
    ensures PageTexts(SettingsRoute.Seed()) == PageTexts(HomeDefaults())
  {
  }

  /** A non-empty stored text is shown as stored. */
  lemma StoredTextShown(s: SiteSettings)
    requires Truthy(s.heroTitle) && Truthy(s.ctaTitle)
    ensures PageTexts(s).heroTitle == s.heroTitle.value && PageTexts(s).ctaTitle == s.ctaTitle.value
  {
  }

  /** `siteSettings.heroImage ? <img> : placeholder` */
  function HeroImage(s: SiteSettings): (r: Option<string>)
    ensures r.Some? <==> Truthy(s.heroImage)
  {
    if Truthy(s.heroImage) then Some(s.heroImage.value) else None
  }

  /** What the services section shows: the cards, or the message and its link when no
      service is loaded. */
  datatype ServicesView =
    | Cards(services: seq<Row<ServiceModel.Service>>)
    | NoServices(message: string, url: string, labelText: string)

  function ServicesSection(latest: seq<Row<ServiceModel.Service>>, s: SiteSettings): (r: ServicesView)
    ensures r.Cards? <==> latest != []
    ensures r.Cards? ==> r.services == latest
  {
    if |latest| > 0 then Cards(latest)
    else
      var t := PageTexts(s);
      NoServices(t.noServicesMessage, t.noServicesButtonUrl, t.noServicesButtonLabel)
  }
}
