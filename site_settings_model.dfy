/** `SiteSettingsSchema` and `HeroButtonSchema` (models/SiteSettings.ts): the texts,
    hero image and call-to-action buttons of the home page. */
module SiteSettingsModel {
  import opened Common
  import opened Schema

  const DefaultHeroImage := "https://images.unsplash.com/photo-1534528741775-53994a69daeb?w=400"
  const DefaultHeroTitle := "Professional Modeling Services"
  const DefaultHeroSubtitle := "Elevate your brand with experienced, versatile modeling for fashion, events, and content creation."
  const DefaultHeroButtonLabel := "Order Service"
  const DefaultHeroButtonUrl := "/services"
  const DefaultServicesTitle := "Our Services"
  const DefaultNoServicesMessage := "No services available yet. Check back soon!"
  const DefaultNoServicesButtonLabel := "Contact Us"
  const DefaultNoServicesButtonUrl := "/contact"
  const DefaultPortfolioTitle := "Portfolio"
  const DefaultCtaTitle := "Ready to Work Together?"
  const DefaultCtaDescription := "Let's create something amazing. Get in touch to discuss your project."
  const DefaultAboutPageTitle := "About Me"
  const DefaultAboutPageSubtitle := "Professional Model & Content Creator"
  const DefaultServicesPageTitle := "Our Services"
  const DefaultServicesPageSubtitle := "Professional modeling services tailored to your needs"

  const Styles: seq<string> := ["primary", "secondary"]

  /** The nested `heroButton` path; its `label` is `labelText` here (`label` is a
      reserved word in Dafny). */
  datatype HeroLink = HeroLink(labelText: Field<string>, url: Field<string>)

  /** One element of `ctaButtons`. */
  datatype CtaButton = CtaButton(labelText: Field<string>, url: Field<string>, style: Field<string>, order: Field<int>)

  datatype SiteSettings = SiteSettings(
    heroImage: Field<string>,
    heroTitle: Field<string>,
    heroSubtitle: Field<string>,
    heroButton: Field<HeroLink>,
    servicesTitle: Field<string>,
    noServicesMessage: Field<string>,
    noServicesButtonLabel: Field<string>,
    noServicesButtonUrl: Field<string>,
    portfolioTitle: Field<string>,
    ctaTitle: Field<string>,
    ctaDescription: Field<string>,
    ctaButtons: Field<seq<CtaButton>>,
    aboutPageTitle: Field<string>,
    aboutPageSubtitle: Field<string>,
    servicesPageTitle: Field<string>,
    servicesPageSubtitle: Field<string>)

  /** The two buttons `ctaButtons` holds when it is not given. */
  function DefaultCtaButtons(): seq<CtaButton> {
    [CtaButton(Present("View Services"), Present("/services"), Present("primary"), Present(1)),
     CtaButton(Present("Contact Us"), Present("/contact"), Present("secondary"), Present(2))]
  }

  /** `HeroButtonSchema` casting: `style` "primary" and `order` 0 when not given. */
  function CastButton(c: CtaButton): (r: CtaButton)
    ensures r.labelText == c.labelText && r.url == c.url
    ensures r.style == WithDefault(c.style, "primary") && r.order == WithDefault(c.order, 0)
  {
    c.(style := WithDefault(c.style, "primary"), order := WithDefault(c.order, 0))
  }

  predicate ValidButton(c: CtaButton) {
    RequiredText(c.labelText) && RequiredText(c.url) && InEnum(c.style, Styles)
  }

  /** The nested `heroButton` on create: each sub-path takes its default when not given. */
  function CastHeroLink(f: Field<HeroLink>): Field<HeroLink> {
    match f
    case Absent => Present(HeroLink(Present(DefaultHeroButtonLabel), Present(DefaultHeroButtonUrl)))
    case Null => Null
    case Present(h) => Present(HeroLink(WithDefault(h.labelText, DefaultHeroButtonLabel), WithDefault(h.url, DefaultHeroButtonUrl)))
  }

  /** Casting the button array, on create and whenever an update assigns it. */
  function CastButtons(f: Field<seq<CtaButton>>): Field<seq<CtaButton>> {
    CastEach(f, CastButton)
  }

  /** Casting on create: every path not given takes its default. */
  function Cast(b: SiteSettings): SiteSettings {
    SiteSettings(
      WithDefault(b.heroImage, DefaultHeroImage),
      WithDefault(b.heroTitle, DefaultHeroTitle),
      WithDefault(b.heroSubtitle, DefaultHeroSubtitle),
      CastHeroLink(b.heroButton),
      WithDefault(b.servicesTitle, DefaultServicesTitle),
      WithDefault(b.noServicesMessage, DefaultNoServicesMessage),
      WithDefault(b.noServicesButtonLabel, DefaultNoServicesButtonLabel),
      WithDefault(b.noServicesButtonUrl, DefaultNoServicesButtonUrl),
      WithDefault(b.portfolioTitle, DefaultPortfolioTitle),
      WithDefault(b.ctaTitle, DefaultCtaTitle),
      WithDefault(b.ctaDescription, DefaultCtaDescription),
      WithDefault(CastButtons(b.ctaButtons), DefaultCtaButtons()),
      WithDefault(b.aboutPageTitle, DefaultAboutPageTitle),
      WithDefault(b.aboutPageSubtitle, DefaultAboutPageSubtitle),
      WithDefault(b.servicesPageTitle, DefaultServicesPageTitle),
      WithDefault(b.servicesPageSubtitle, DefaultServicesPageSubtitle))
  }

  /** The schema's validators: `heroImage` required, and every button valid. */
  predicate Valid(s: SiteSettings) {
    RequiredText(s.heroImage) && Each(s.ctaButtons, ValidButton)
  }

  /** `SiteSettings.create(body)` */
  function Create(b: SiteSettings): (r: Result<SiteSettings>)
    ensures r.Ok? ==> Valid(r.value)
    ensures r.Ok? ==> r.value == Cast(b)
    ensures r.Err? ==> r.error == ValidationError("SiteSettings") && !Valid(Cast(b))
  {
    var d := Cast(b);
    if Valid(d) then Ok(d) else Err(ValidationError("SiteSettings"))
  }

  /** The document with nothing given. */
  function Empty(): SiteSettings {
    SiteSettings(Absent, Absent, Absent, Absent, Absent, Absent, Absent, Absent,
                 Absent, Absent, Absent, Absent, Absent, Absent, Absent, Absent)
  }

  /** The sixteen paths, for statements about all of them at once. */
  datatype Key =
    | HeroImage | HeroTitle | HeroSubtitle | HeroButton
    | ServicesTitle | NoServicesMessage | NoServicesButtonLabel | NoServicesButtonUrl
    | PortfolioTitle | CtaTitle | CtaDescription | CtaButtons
    | AboutPageTitle | AboutPageSubtitle | ServicesPageTitle | ServicesPageSubtitle

  /** The value of one path. */
  datatype Value = Text(text: Field<string>) | Link(link: Field<HeroLink>) | Buttons(buttons: Field<seq<CtaButton>>)

  function At(s: SiteSettings, k: Key): (v: Value)
    ensures k == HeroButton <==> v.Link?
    ensures k == CtaButtons <==> v.Buttons?
  {
    match k
    case HeroImage => Text(s.heroImage)
    case HeroTitle => Text(s.heroTitle)
    case HeroSubtitle => Text(s.heroSubtitle)
    case HeroButton => Link(s.heroButton)
    case ServicesTitle => Text(s.servicesTitle)
    case NoServicesMessage => Text(s.noServicesMessage)
    case NoServicesButtonLabel => Text(s.noServicesButtonLabel)
    case NoServicesButtonUrl => Text(s.noServicesButtonUrl)
    case PortfolioTitle => Text(s.portfolioTitle)
    case CtaTitle => Text(s.ctaTitle)
    case CtaDescription => Text(s.ctaDescription)
    case CtaButtons => Buttons(s.ctaButtons)
    case AboutPageTitle => Text(s.aboutPageTitle)
    case AboutPageSubtitle => Text(s.aboutPageSubtitle)
    case ServicesPageTitle => Text(s.servicesPageTitle)
    case ServicesPageSubtitle => Text(s.servicesPageSubtitle)
  }

  /** The schema's default for one path. */
  function DefaultAt(k: Key): Value {
    match k
    case HeroImage => Text(Present(DefaultHeroImage))
    case HeroTitle => Text(Present(DefaultHeroTitle))
    case HeroSubtitle => Text(Present(DefaultHeroSubtitle))
    case HeroButton => Link(Present(HeroLink(Present(DefaultHeroButtonLabel), Present(DefaultHeroButtonUrl))))
    case ServicesTitle => Text(Present(DefaultServicesTitle))
    case NoServicesMessage => Text(Present(DefaultNoServicesMessage))
    case NoServicesButtonLabel => Text(Present(DefaultNoServicesButtonLabel))
    case NoServicesButtonUrl => Text(Present(DefaultNoServicesButtonUrl))
    case PortfolioTitle => Text(Present(DefaultPortfolioTitle))
    case CtaTitle => Text(Present(DefaultCtaTitle))
    case CtaDescription => Text(Present(DefaultCtaDescription))
    case CtaButtons => Buttons(Present(DefaultCtaButtons()))
    case AboutPageTitle => Text(Present(DefaultAboutPageTitle))
    case AboutPageSubtitle => Text(Present(DefaultAboutPageSubtitle))
    case ServicesPageTitle => Text(Present(DefaultServicesPageTitle))
    case ServicesPageSubtitle => Text(Present(DefaultServicesPageSubtitle))
  }

  /** Whether a path is missing from a body. */
  predicate Missing(v: Value) {
    match v
    case Text(f) => f.Absent?
    case Link(f) => f.Absent?
    case Buttons(f) => f.Absent?
  }

  /** Two documents are equal exactly when they agree on every path. */
  lemma {:induction false} EqualAt(s: SiteSettings, t: SiteSettings)
    requires forall k: Key :: At(s, k) == At(t, k)
    ensures s == t
  {
    assert s.heroImage == t.heroImage by { assert At(s, HeroImage) == At(t, HeroImage); }
    assert s.heroTitle == t.heroTitle by { assert At(s, HeroTitle) == At(t, HeroTitle); }
    assert s.heroSubtitle == t.heroSubtitle by { assert At(s, HeroSubtitle) == At(t, HeroSubtitle); }
    assert s.heroButton == t.heroButton by { assert At(s, HeroButton) == At(t, HeroButton); }
    assert s.servicesTitle == t.servicesTitle by { assert At(s, ServicesTitle) == At(t, ServicesTitle); }
    assert s.noServicesMessage == t.noServicesMessage by { assert At(s, NoServicesMessage) == At(t, NoServicesMessage); }
    assert s.noServicesButtonLabel == t.noServicesButtonLabel by { assert At(s, NoServicesButtonLabel) == At(t, NoServicesButtonLabel); }
    assert s.noServicesButtonUrl == t.noServicesButtonUrl by { assert At(s, NoServicesButtonUrl) == At(t, NoServicesButtonUrl); }
    assert s.portfolioTitle == t.portfolioTitle by { assert At(s, PortfolioTitle) == At(t, PortfolioTitle); }
    assert s.ctaTitle == t.ctaTitle by { assert At(s, CtaTitle) == At(t, CtaTitle); }
    assert s.ctaDescription == t.ctaDescription by { assert At(s, CtaDescription) == At(t, CtaDescription); }
    assert s.ctaButtons == t.ctaButtons by { assert At(s, CtaButtons) == At(t, CtaButtons); }
    assert s.aboutPageTitle == t.aboutPageTitle by { assert At(s, AboutPageTitle) == At(t, AboutPageTitle); }
    assert s.aboutPageSubtitle == t.aboutPageSubtitle by { assert At(s, AboutPageSubtitle) == At(t, AboutPageSubtitle); }
    assert s.servicesPageTitle == t.servicesPageTitle by { assert At(s, ServicesPageTitle) == At(t, ServicesPageTitle); }
    assert s.servicesPageSubtitle == t.servicesPageSubtitle by { assert At(s, ServicesPageSubtitle) == At(t, ServicesPageSubtitle); }
  }

  /** A button is accepted exactly when it has a label and a url and its style, if
      given, is one of the two. */
  lemma ButtonAcceptsIff(c: CtaButton)
    ensures ValidButton(CastButton(c)) <==>
      (RequiredText(c.labelText) && RequiredText(c.url)
       && (c.style.Absent? || (c.style.Present? && c.style.value in Styles)))
  {
    if c.style.Absent? {
      assert Styles[0] == "primary";
    }
  }

  /** The default buttons are valid and ordered 1, 2. */
  lemma DefaultButtonsValid()
    ensures |DefaultCtaButtons()| == 2
    ensures forall i :: 0 <= i < 2 ==> ValidButton(DefaultCtaButtons()[i]) && CastButton(DefaultCtaButtons()[i]) == DefaultCtaButtons()[i]
    ensures DefaultCtaButtons()[0].order == Present(1) && DefaultCtaButtons()[1].order == Present(2)
  {
    assert Styles[0] == "primary" && Styles[1] == "secondary";
  }

  /** A document created from nothing holds every default, on all sixteen paths, and
      is valid. */
  lemma CreateEmpty()
    ensures Create(Empty()).Ok?
    ensures forall k: Key :: At(Create(Empty()).value, k) == DefaultAt(k)
  {
    DefaultButtonsValid();
    assert Cast(Empty()).ctaButtons == Present(DefaultCtaButtons());
    forall k: Key
      ensures At(Cast(Empty()), k) == DefaultAt(k)
    {
      CastDefaults(Empty(), k);
    }
  }

  /** A path the body does not give takes its default value; a given text path
      keeps the given value, and a given link or button array is cast. */
  lemma CastDefaults(b: SiteSettings, k: Key)
    ensures Missing(At(b, k)) ==> At(Cast(b), k) == DefaultAt(k)
    ensures !Missing(At(b, k)) && k != HeroButton && k != CtaButtons ==> At(Cast(b), k) == At(b, k)
    ensures !Missing(At(b, k)) && k == HeroButton ==> At(Cast(b), k) == Link(CastHeroLink(b.heroButton))
    ensures !Missing(At(b, k)) && k == CtaButtons ==> At(Cast(b), k) == Buttons(CastButtons(b.ctaButtons))
  {
  }

  /** `heroImage` set to `null` or "" is refused; not given, it takes the default, so a
      body without it is accepted when its buttons are. */
  lemma HeroImageRequired(b: SiteSettings)
    ensures (b.heroImage.Null? || b.heroImage == Present("")) ==> Create(b).Err?
    ensures b.heroImage.Absent? && b.ctaButtons.Absent? ==> Create(b).Ok?
  {
    if b.heroImage.Absent? && b.ctaButtons.Absent? {
      DefaultButtonsValid();
      assert Cast(b).ctaButtons == Present(DefaultCtaButtons());
    }
  }
}
