/** app/admin/contact/page.tsx: the administrator's editor for the contact details
    and the social-media links. */
module ContactPage {
  import opened Common
  import opened Lists
  import opened Store
  import opened ContactInfoModel
  import Singleton
  import ContactInfoRoute

  /** `{ type, text }` of the banner above the form. */
  datatype Notice = Notice(kind: string, text: string)

  datatype Page = Page(data: ContactInfo, notice: Notice)

  const Updated := "Contact information updated successfully!"
  const RejectedFallback := "Failed to update contact info"
  const Unreachable := "An error occurred while updating"

  /** `fetchContactInfo`: a successful reply replaces the form; anything else leaves it
      and shows nothing. */
  function Load(p: Page, reply: Result<Body<Row<ContactInfo>>>): (r: Page)
    ensures reply.Ok? && reply.value.Success? ==> r == p.(data := reply.value.data.doc)
    ensures !(reply.Ok? && reply.value.Success?) ==> r == p
  {
    if reply.Ok? && reply.value.Success? then p.(data := reply.value.data.doc) else p
  }

  /** Loading against the route: the form then holds the document GET serves, the
      stored one or, on an empty store, the literal document GET has just stored; a
      failed GET leaves the form and shows nothing. */
  lemma LoadShowsServed(p: Page, rows: seq<Row<ContactInfo>>, fault: Option<Thrown>, stamp: Stamp)
    ensures var (o, after) := Singleton.Get(rows, fault, Create(ContactInfoRoute.Seed()), stamp);
      var shown := Load(p, Ok(Singleton.Respond(o, "Unauthorized", ContactInfoRoute.FetchFailure).body));
      (fault.None? && rows != [] ==> shown == p.(data := rows[0].doc))
      && (fault.None? && rows == [] ==> shown == p.(data := ContactInfoRoute.Seed()) && after != [] && after[0].doc == ContactInfoRoute.Seed())
      && (fault.Some? ==> shown == p && after == rows)
  {
    ContactInfoRoute.SeedAccepted();
  }

  /** `handleSubmit` after the banner was cleared. */
  function Submit(p: Page, reply: Result<Body<Row<ContactInfo>>>): (r: Page)
    ensures reply.Ok? && reply.value.Success? ==> r == Page(reply.value.data.doc, Notice("success", Updated))
    ensures !(reply.Ok? && reply.value.Success?) ==> r.data == p.data && r.notice.kind == "error"
    ensures reply.Ok? && reply.value.Failure? ==>
      r.notice.text == (if reply.value.error != "" then reply.value.error else RejectedFallback)
    ensures reply.Err? ==> r.notice.text == Unreachable
  {
    match reply
    case Err(_) => Page(p.data, Notice("error", Unreachable))
    case Ok(Success(row)) => Page(row.doc, Notice("success", Updated))
    case Ok(Failure(error)) => Page(p.data, Notice("error", if error != "" then error else RejectedFallback))
  }

  /** Submitting against the route: a stored document becomes the form's contents; an
      unauthenticated PATCH shows 'Unauthorized' and changes neither the form nor the
      store; a failed one shows the route's 'Failed to update contact info'. */
  lemma SubmitShowsStored(p: Page, rows: seq<Row<ContactInfo>>, session: bool, fault: Option<Thrown>, stamp: Stamp)
    ensures var (o, after) := Singleton.Patch(rows, session, fault, p.data, Create, Update, stamp);
      var shown := Submit(p, Ok(Singleton.Respond(o, "Unauthorized", ContactInfoRoute.UpdateFailure).body));
      (o.Served? ==> after != [] && shown.data == after[0].doc && shown.notice == Notice("success", Updated))
      && (!session ==> shown == Page(p.data, Notice("error", "Unauthorized")) && after == rows)
      && (o.Failed? ==> shown == Page(p.data, Notice("error", RejectedFallback)) && after == rows)
  {
  }

  /** `addSocialMedia` */
  function AddSocialMedia(links: seq<SocialMedia>): (r: seq<SocialMedia>)
    ensures |r| == |links| + 1 && r[..|links|] == links
    ensures r[|links|] == SocialMedia(Present(""), Present(""), Present(""))
  {
    links + [SocialMedia(Present(""), Present(""), Present(""))]
  }

  /** The property `updateSocialMedia` assigns. */
  datatype SocialPart = NamePart | UrlPart | IconPart

  function EditedSocial(m: SocialMedia, part: SocialPart, value: string): SocialMedia {
    match part
    case NamePart => m.(name := Present(value))
    case UrlPart => m.(url := Present(value))
    case IconPart => m.(icon := Present(value))
  }

  /** `updateSocialMedia(index, field, value)` */
  function UpdateSocialMedia(links: seq<SocialMedia>, i: nat, part: SocialPart, value: string): (r: seq<SocialMedia>)
    requires i < |links|
    ensures |r| == |links|
    ensures forall j :: 0 <= j < |links| && j != i ==> r[j] == links[j]
    ensures r[i] == EditedSocial(links[i], part, value)
  {
    ReplaceAt(links, i, EditedSocial(links[i], part, value))
  }

  /** `removeSocialMedia(index)` */
  function RemoveSocialMedia(links: seq<SocialMedia>, i: nat): (r: seq<SocialMedia>)
    requires i < |links|
    ensures r == links[..i] + links[i + 1..]
  {
    RemoveAtSlices(links, i);
    RemoveAt(links, i)
  }
}
