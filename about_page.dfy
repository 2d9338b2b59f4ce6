/** app/admin/about/page.tsx: the administrator's editor for the about page. The
    editors build the next experience or skill list from the current one; loading
    and saving replace the edited document with the server's copy or leave it. */
module AboutPage {
  import opened Common
  import opened Lists
  import opened Store
  import opened AboutModel
  import Singleton
  import AboutRoute

  /** The page's state: the document being edited and the message shown. */
  datatype Page = Page(data: About, message: string)

  /** The state before anything is loaded. */
  function Initial(): Page {
    Page(About(Present(""), Present(""), Present(""), Present([]), Present([])), "")
  }

  const LoadFailure := "Failed to load data"
  const Saved := "✓ About page updated successfully!"
  const SaveError := "✗ Error saving changes. Please check console for details."

  /** `fetchAboutData`. `reply` is the parsed body of GET /api/about, or what
      `fetch` or `res.json()` threw. */
  function Load(p: Page, reply: Result<Body<Row<About>>>): (r: Page)
    ensures reply.Ok? && reply.value.Success? ==> r == p.(data := reply.value.data.doc)
    ensures reply.Ok? && reply.value.Failure? ==> r == p
    ensures reply.Err? ==> r == p.(message := LoadFailure)
  {
    match reply
    case Err(_) => p.(message := LoadFailure)
    case Ok(Success(row)) => p.(data := row.doc)
    case Ok(Failure(_)) => p
  }

  /** Loading against the route: the form then holds the document GET serves, the
      stored one or, on an empty store, the literal document GET has just stored; a
      failed GET leaves the form as it was. */
  lemma LoadShowsServed(p: Page, rows: seq<Row<About>>, fault: Option<Thrown>, stamp: Stamp)
    ensures var (o, after) := Singleton.Get(rows, fault, Create(AboutRoute.Seed()), stamp);
      var shown := Load(p, Ok(Singleton.Respond(o, AboutRoute.Refusal, AboutRoute.FetchFailure).body));
      (fault.None? && rows != [] ==> shown == p.(data := rows[0].doc))
      && (fault.None? && rows == [] ==> shown == p.(data := AboutRoute.Seed()) && after != [] && after[0].doc == AboutRoute.Seed())
      && (fault.Some? ==> shown == p && after == rows)
  {
    AboutRoute.SeedAccepted();
  }

  /** A failed first load leaves the empty form, with the message 'Failed to load data'. */
  lemma LoadFailureKeepsInitial(e: Thrown)
    ensures Load(Initial(), Err(e)).data == Initial().data
    ensures Load(Initial(), Err(e)).message == LoadFailure
  {
  }

  /** `✗ Failed to update: ${data.error || 'Unknown error'}` */
  function Rejected(error: string): string {
    "✗ Failed to update: " + (if error != "" then error else "Unknown error")
  }

  /** `handleSave` after the message was cleared. `reply` is the parsed body of the
      PATCH, or what was thrown. */
  function Save(p: Page, reply: Result<Body<Row<About>>>): (r: Page)
    ensures reply.Ok? && reply.value.Success? ==> r == Page(reply.value.data.doc, Saved)
    ensures !(reply.Ok? && reply.value.Success?) ==> r.data == p.data
    ensures reply.Ok? && reply.value.Failure? ==> r.message == Rejected(reply.value.error)
    ensures reply.Err? ==> r.message == SaveError
  {
    match reply
    case Err(_) => Page(p.data, SaveError)
    case Ok(Success(row)) => Page(row.doc, Saved)
    case Ok(Failure(error)) => Page(p.data, Rejected(error))
  }

  /** Saving against the route: when the PATCH stores a document the page goes on
      editing exactly what was stored; when it is refused the page keeps its edits. */
  lemma SaveShowsStored(p: Page, rows: seq<Row<About>>, session: bool, fault: Option<Thrown>, stamp: Stamp)
    ensures var (o, after) := Singleton.Patch(rows, session, fault, p.data, Create, Update, stamp);
      var shown := Save(p, Ok(Singleton.Respond(o, AboutRoute.Refusal, AboutRoute.UpdateFailure).body));
      (o.Served? ==> after != [] && shown.data == after[0].doc && shown.message == Saved)
      && (!o.Served? ==> shown.data == p.data && after == rows)
  {
  }

  /** `addExperience`: an empty experience numbered with the previous count. */
  function AddExperience(es: seq<Experience>): (r: seq<Experience>)
    ensures |r| == |es| + 1 && r[..|es|] == es
    ensures r[|es|] == Experience(Present(""), Present(""), Present(""), Present(|es|))
  {
    es + [Experience(Present(""), Present(""), Present(""), Present(|es|))]
  }

  /** `addSkill`: an unnamed skill at level 50 numbered with the previous count. */
  function AddSkill(ks: seq<Skill>): (r: seq<Skill>)
    ensures |r| == |ks| + 1 && r[..|ks|] == ks
    ensures r[|ks|] == Skill(Present(""), Present(50), Present(|ks|))
  {
    ks + [Skill(Present(""), Present(50), Present(|ks|))]
  }

  function AddedExperiences(n: nat): seq<Experience> {
    if n == 0 then [] else AddExperience(AddedExperiences(n - 1))
  }

  function AddedSkills(n: nat): seq<Skill> {
    if n == 0 then [] else AddSkill(AddedSkills(n - 1))
  }

  /** Added to an empty list, n experiences and n skills are numbered 0, ..., n - 1. */
  lemma {:induction false} AddedNumbered(n: nat)
    ensures |AddedExperiences(n)| == n && |AddedSkills(n)| == n
    ensures forall k :: 0 <= k < n ==> AddedExperiences(n)[k].order == Present(k)
    ensures forall k :: 0 <= k < n ==> AddedSkills(n)[k].order == Present(k) && AddedSkills(n)[k].level == Present(50)
  {
    if n > 0 {
      AddedNumbered(n - 1);
    }
  }

  /** `removeExperience(index)` */
  function RemoveExperience(es: seq<Experience>, i: nat): (r: seq<Experience>)
    requires i < |es|
    ensures r == es[..i] + es[i + 1..]
  {
    RemoveAtSlices(es, i);
    RemoveAt(es, i)
  }

  /** `removeSkill(index)` */
  function RemoveSkill(ks: seq<Skill>, i: nat): (r: seq<Skill>)
    requires i < |ks|
    ensures r == ks[..i] + ks[i + 1..]
  {
    RemoveAtSlices(ks, i);
    RemoveAt(ks, i)
  }

  /** The field `updateExperience` assigns. */
  datatype ExperienceEdit = SetYear(text: string) | SetTitle(text: string) | SetDescription(text: string)

  function EditedExperience(e: Experience, x: ExperienceEdit): Experience {
    match x
    case SetYear(t) => e.(year := Present(t))
    case SetTitle(t) => e.(title := Present(t))
    case SetDescription(t) => e.(description := Present(t))
  }

  /** `updateExperience(index, field, value)`: a copy of entry i with one field changed
      in a copy of the list. */
  function UpdateExperience(es: seq<Experience>, i: nat, x: ExperienceEdit): (r: seq<Experience>)
    requires i < |es|
    ensures |r| == |es|
    ensures forall j :: 0 <= j < |es| && j != i ==> r[j] == es[j]
    ensures r[i] == EditedExperience(es[i], x)
  {
    es[i := EditedExperience(es[i], x)]
  }

  /** The field `updateSkill` assigns; the level is `parseInt` of the slider. */
  datatype SkillEdit = SetName(text: string) | SetLevel(n: int)

  function EditedSkill(k: Skill, x: SkillEdit): Skill {
    match x
    case SetName(t) => k.(name := Present(t))
    case SetLevel(n) => k.(level := Present(n))
  }

  /** `updateSkill(index, field, value)` */
  function UpdateSkill(ks: seq<Skill>, i: nat, x: SkillEdit): (r: seq<Skill>)
    requires i < |ks|
    ensures |r| == |ks|
    ensures forall j :: 0 <= j < |ks| && j != i ==> r[j] == ks[j]
    ensures r[i] == EditedSkill(ks[i], x)
  {
    ks[i := EditedSkill(ks[i], x)]
  }

  /** An update changes one field and keeps the entry's order; the other fields of
      the entry are unchanged too. */
  lemma UpdateKeepsOrder(es: seq<Experience>, ks: seq<Skill>, i: nat, x: ExperienceEdit, y: SkillEdit)
    requires i < |es| && i < |ks|
    ensures UpdateExperience(es, i, x)[i].order == es[i].order
    ensures UpdateSkill(ks, i, y)[i].order == ks[i].order
    ensures x.SetYear? ==> UpdateExperience(es, i, x)[i] == es[i].(year := Present(x.text))
    ensures y.SetLevel? ==> UpdateSkill(ks, i, y)[i] == ks[i].(level := Present(y.n))
  {
  }
}
