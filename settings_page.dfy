/** app/admin/settings/page.tsx: the administrator's editor for the site settings,
    the footer and the navigation bar. The lists it edits are held in the page's
    state; the editors build the next list from the current one. */
module SettingsPage {
  import opened Common
  import opened Lists
  import opened Sorting
  import opened SiteSettingsModel
  import opened FooterSettingsModel
  import opened NavbarSettingsModel
  import SettingsRoute

  /** The two page-title pairs the page edits apart from the hero settings. */
  datatype PageTitles = PageTitles(title: Field<string>, subtitle: Field<string>)

  /** `fetchSettings`: the loaded document without the four page titles, the about
      page's pair and the services page's pair. */
  function SplitSettings(s: SiteSettings): (SiteSettings, PageTitles, PageTitles) {
    (s.(aboutPageTitle := Absent, aboutPageSubtitle := Absent, servicesPageTitle := Absent, servicesPageSubtitle := Absent),
     PageTitles(s.aboutPageTitle, s.aboutPageSubtitle),
     PageTitles(s.servicesPageTitle, s.servicesPageSubtitle))
  }

  /** Splitting loses nothing: the three parts put together give the loaded document. */
  lemma SplitLosesNothing(s: SiteSettings)
    ensures var (hero, about, services) := SplitSettings(s);
      hero.(aboutPageTitle := about.title, aboutPageSubtitle := about.subtitle,
            servicesPageTitle := services.title, servicesPageSubtitle := services.subtitle) == s
  {
  }

  /** Saving the hero part sends no page title, so the stored page titles survive
      it; every other path takes the value in the form. */
  lemma SavingHeroKeepsPageTitles(stored: SiteSettings, loaded: SiteSettings)
    ensures var hero := SplitSettings(loaded).0;
      var merged := SettingsRoute.MergeGiven(stored, hero);
      merged.aboutPageTitle == stored.aboutPageTitle && merged.aboutPageSubtitle == stored.aboutPageSubtitle
      && merged.servicesPageTitle == stored.servicesPageTitle && merged.servicesPageSubtitle == stored.servicesPageSubtitle
  {
    var hero := SplitSettings(loaded).0;
    var merged := SettingsRoute.MergeGiven(stored, hero);
    assert At(merged, AboutPageTitle) == At(stored, AboutPageTitle);
    assert At(merged, AboutPageSubtitle) == At(stored, AboutPageSubtitle);
    assert At(merged, ServicesPageTitle) == At(stored, ServicesPageTitle);
    assert At(merged, ServicesPageSubtitle) == At(stored, ServicesPageSubtitle);
  }

  /** Which text of a link an editor changes. */
  datatype LinkPart = LabelPart | UrlPart

  function BlankQuickLink(): QuickLink {
    QuickLink(Present(""), Present(""))
  }

  /** `addQuickLink` */
  function AddQuickLink(links: seq<QuickLink>): (r: seq<QuickLink>)
    ensures |r| == |links| + 1 && r[..|links|] == links && r[|links|] == BlankQuickLink()
  {
    links + [BlankQuickLink()]
  }

  /** `updateQuickLink(index, field, value)` */
  function UpdateQuickLink(links: seq<QuickLink>, i: nat, part: LinkPart, value: string): (r: seq<QuickLink>)
    requires i < |links|
    ensures |r| == |links|
    ensures forall j :: 0 <= j < |links| && j != i ==> r[j] == links[j]
    ensures part == LabelPart ==> r[i] == links[i].(labelText := Present(value))
    ensures part == UrlPart ==> r[i] == links[i].(url := Present(value))
  {
    var l := links[i];
    ReplaceAt(links, i, if part == LabelPart then l.(labelText := Present(value)) else l.(url := Present(value)))
  }

  /** `removeQuickLink(index)` */
  function RemoveQuickLink(links: seq<QuickLink>, i: nat): (r: seq<QuickLink>)
    requires i < |links|
    ensures r == links[..i] + links[i + 1..]
  {
    RemoveAtSlices(links, i);
    RemoveAt(links, i)
  }

  /** `heroSettings.ctaButtons || []` */
  function ButtonsOf(f: Field<seq<CtaButton>>): seq<CtaButton> {
    if f.Present? then f.value else []
  }

  /** `addCtaButton`: an empty primary button numbered one past the current count, a
      missing list counting as empty. */
  function AddCtaButton(f: Field<seq<CtaButton>>): (r: seq<CtaButton>)
    ensures |r| == |ButtonsOf(f)| + 1 && r[..|ButtonsOf(f)|] == ButtonsOf(f)
    ensures r[|ButtonsOf(f)|] == CtaButton(Present(""), Present(""), Present("primary"), Present(|ButtonsOf(f)| + 1))
  {
    var buttons := ButtonsOf(f);
    buttons + [CtaButton(Present(""), Present(""), Present("primary"), Present(|buttons| + 1))]
  }

  /** The property an update assigns: `label`, `url`, `style` or `order`. */
  datatype ButtonEdit = SetLabel(text: string) | SetUrl(text: string) | SetStyle(text: string) | SetOrder(n: int)

  function Edited(c: CtaButton, e: ButtonEdit): CtaButton {
    match e
    case SetLabel(t) => c.(labelText := Present(t))
    case SetUrl(t) => c.(url := Present(t))
    case SetStyle(t) => c.(style := Present(t))
    case SetOrder(n) => c.(order := Present(n))
  }

  /** `updateCtaButton(index, field, value)` */
  function UpdateCtaButton(f: Field<seq<CtaButton>>, i: nat, e: ButtonEdit): (r: seq<CtaButton>)
    requires i < |ButtonsOf(f)|
    ensures |r| == |ButtonsOf(f)|
    ensures forall j :: 0 <= j < |r| && j != i ==> r[j] == ButtonsOf(f)[j]
    ensures r[i] == Edited(ButtonsOf(f)[i], e)
  {
    ReplaceAt(ButtonsOf(f), i, Edited(ButtonsOf(f)[i], e))
  }

  /** `removeCtaButton(index)` */
  function RemoveCtaButton(f: Field<seq<CtaButton>>, i: nat): (r: seq<CtaButton>)
    requires i < |ButtonsOf(f)|
    ensures r == ButtonsOf(f)[..i] + ButtonsOf(f)[i + 1..]
  {
    RemoveAtSlices(ButtonsOf(f), i);
    RemoveAt(ButtonsOf(f), i)
  }

  /** `addNavLink`: an empty link numbered one past the current count. */
  function AddNavLink(links: seq<NavLink>): (r: seq<NavLink>)
    ensures |r| == |links| + 1 && r[..|links|] == links
    ensures r[|links|] == NavLink(Present(""), Present(""), Present(|links| + 1))
  {
    links + [NavLink(Present(""), Present(""), Present(|links| + 1))]
  }

  /** What `updateNavLink` assigns. */
  datatype NavEdit = NavLabel(text: string) | NavUrl(text: string) | NavOrder(n: int)

  function EditedLink(l: NavLink, e: NavEdit): NavLink {
    match e
    case NavLabel(t) => l.(labelText := Present(t))
    case NavUrl(t) => l.(url := Present(t))
    case NavOrder(n) => l.(order := Present(n))
  }

  /** `updateNavLink(index, field, value)` */
  function UpdateNavLink(links: seq<NavLink>, i: nat, e: NavEdit): (r: seq<NavLink>)
    requires i < |links|
    ensures |r| == |links|
    ensures forall j :: 0 <= j < |links| && j != i ==> r[j] == links[j]
    ensures r[i] == EditedLink(links[i], e)
  {
    ReplaceAt(links, i, EditedLink(links[i], e))
  }

  /** `removeNavLink(index)` */
  function RemoveNavLink(links: seq<NavLink>, i: nat): (r: seq<NavLink>)
    requires i < |links|
    ensures r == links[..i] + links[i + 1..]
  {
    RemoveAtSlices(links, i);
    RemoveAt(links, i)
  }

  /** A new button or nav link takes the next number: after n additions to an empty
      list the orders are 1, ..., n. */
  lemma {:induction false} AddedNavLinksNumbered(n: nat)
    ensures |AddedNavLinks(n)| == n
    ensures forall k :: 0 <= k < n ==> AddedNavLinks(n)[k].order == Present(k + 1)
  {
    if n > 0 {
      AddedNavLinksNumbered(n - 1);
    }
  }

  function AddedNavLinks(n: nat): seq<NavLink> {
    if n == 0 then [] else AddNavLink(AddedNavLinks(n - 1))
  }

  /** `(link.order || 0)`: a missing, `null` or 0 order counts as 0. */
  function NavKey(l: NavLink): int {
    if l.order.Present? then l.order.value else 0
  }

  predicate NavOrder(a: NavLink, b: NavLink) {
    NavKey(a) <= NavKey(b)
  }

  lemma NavOrderPreorder()
    ensures TotalPreorder(NavOrder)
  {
  }

  /** Rows of the list edit the first link with the same label and url. */
  predicate SameLink(a: NavLink, b: NavLink) {
    a.labelText == b.labelText && a.url == b.url
  }

  /** `navLinks.findIndex(l => l.label === link.label && l.url === link.url)` */
  function Target(links: seq<NavLink>, k: nat): (t: int)
    requires k < |links|
  {
    FindIndex(links, l => SameLink(l, links[k]))
  }

  /** Row `k` targets the first link with its label and url: row `k` itself unless an
      earlier link has the same two, so duplicate rows all edit the first of them. */
  lemma TargetIsFirstSame(links: seq<NavLink>, k: nat)
    requires k < |links|
    ensures 0 <= Target(links, k) <= k
    ensures SameLink(links[Target(links, k)], links[k])
    ensures forall j :: 0 <= j < Target(links, k) ==> !SameLink(links[j], links[k])
    ensures Target(links, k) == k <==> forall j :: 0 <= j < k ==> !SameLink(links[j], links[k])
  {
    assert SameLink(links[k], links[k]);
    var t := Target(links, k);
    assert t != -1;
  }

  /** The render: `navLinks.sort(...)` sorts the state's own array in place, and each
      row is then matched against that sorted array. */
  method RenderNavRows(a: array<NavLink>) returns (targets: seq<int>)
    modifies a
    ensures a[..] == Sort(old(a[..]), NavOrder)
    ensures |targets| == a.Length
    ensures forall k :: 0 <= k < a.Length ==> targets[k] == Target(a[..], k)
  {
    SortInPlace(a, NavOrder);
    var links := a[..];
    targets := seq(a.Length, k requires 0 <= k < a.Length => Target(links, k));
  }

  /** The rows are the links in ascending order, each once. */
  lemma NavRowsOrdered(links: seq<NavLink>)
    ensures multiset(Sort(links, NavOrder)) == multiset(links)
    ensures forall i, j :: 0 <= i < j < |links| ==> NavKey(Sort(links, NavOrder)[i]) <= NavKey(Sort(links, NavOrder)[j])
  {
    NavOrderPreorder();
    SortSorted(links, NavOrder);
  }
}
