/** `NavbarSettingsSchema` and `NavLinkSchema` (models/NavbarSettings.ts): the site
    name and the navigation links. */
module NavbarSettingsModel {
  import opened Common
  import opened Schema

  const DefaultSiteName := "ModelPro"

  /** One navigation link; its `label` is `labelText` here (`label` is a reserved word
      in Dafny). */
  datatype NavLink = NavLink(labelText: Field<string>, url: Field<string>, order: Field<int>)

  datatype NavbarSettings = NavbarSettings(siteName: Field<string>, navLinks: Field<seq<NavLink>>)

  /** `NavLinkSchema` casting: `order` 0 when not given. */
  function CastLink(l: NavLink): (r: NavLink)
    ensures r.labelText == l.labelText && r.url == l.url && r.order == WithDefault(l.order, 0)
  {
    l.(order := WithDefault(l.order, 0))
  }

  predicate ValidLink(l: NavLink) {
    RequiredText(l.labelText) && RequiredText(l.url)
  }

  /** Casting on create: `siteName` "ModelPro" when not given, each link cast. */
  function Cast(b: NavbarSettings): NavbarSettings {
    NavbarSettings(WithDefault(b.siteName, DefaultSiteName), WithDefault(CastEach(b.navLinks, CastLink), []))
  }

  predicate Valid(n: NavbarSettings) {
    Each(n.navLinks, ValidLink)
  }

  /** `NavbarSettings.create(body)` */
  function Create(b: NavbarSettings): (r: Result<NavbarSettings>)
    ensures r.Ok? ==> Valid(r.value)
    ensures r.Ok? ==> r.value == Cast(b)
    ensures r.Err? ==> r.error == ValidationError("NavbarSettings") && !Valid(Cast(b))
  {
    var d := Cast(b);
    if Valid(d) then Ok(d) else Err(ValidationError("NavbarSettings"))
  }

  /** `findByIdAndUpdate(id, body, { runValidators: true })`: given links are cast
      (so each has an `order`) and validated. */
  function Update(stored: NavbarSettings, b: NavbarSettings): (r: Result<NavbarSettings>)
    ensures r.Ok? ==> Valid(stored) ==> Valid(r.value)
    ensures r.Err? ==> r.error == ValidationError("NavbarSettings")
  {
    var links := CastEach(b.navLinks, CastLink);
    if Each(links, ValidLink) then
      Ok(NavbarSettings(Overwrite(stored.siteName, b.siteName), Overwrite(stored.navLinks, links)))
    else Err(ValidationError("NavbarSettings"))
  }

  /** Every link a create or an update stores is cast in place: its `order` is 0 when
      not given, and the links keep their places. */
  lemma LinksOrdered(stored: NavbarSettings, b: NavbarSettings)
    requires b.navLinks.Present?
    ensures Create(b).Ok? ==>
      (|Create(b).value.navLinks.value| == |b.navLinks.value|
       && forall i :: 0 <= i < |b.navLinks.value| ==>
            Create(b).value.navLinks.value[i] == CastLink(b.navLinks.value[i]))
    ensures Update(stored, b).Ok? ==>
      (|Update(stored, b).value.navLinks.value| == |b.navLinks.value|
       && forall i :: 0 <= i < |b.navLinks.value| ==>
            Update(stored, b).value.navLinks.value[i].order
              == (if b.navLinks.value[i].order.Absent? then Present(0) else b.navLinks.value[i].order))
  {
  }

  /** A create or an update is refused exactly when some link lacks a label or a url;
      without links, a create stores the site name "ModelPro" when none is given. */
  lemma AcceptsIff(stored: NavbarSettings, b: NavbarSettings)
    ensures Create(b).Ok? <==> Each(b.navLinks, ValidLink)
    ensures Update(stored, b).Ok? <==> Each(b.navLinks, ValidLink)
    ensures Create(b).Ok? && b.siteName.Absent? ==> Create(b).value.siteName == Present(DefaultSiteName)
  {
    if b.navLinks.Present? {
      var links := CastEach(b.navLinks, CastLink);
      assert forall i :: 0 <= i < |b.navLinks.value| ==>
        (ValidLink(links.value[i]) <==> ValidLink(b.navLinks.value[i]));
    }
  }
}
