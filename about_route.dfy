/** app/api/about/route.ts: GET creates the about page from literal values when none
    exists; PATCH creates it from the body, or updates the first document with the
    body. */
module AboutRoute {
  import opened Common
  import opened Store
  import opened Schema
  import opened Singleton
  import opened AboutModel

  function SeedExperiences(): seq<Experience> {
    [Experience(Present("2020-Present"), Present("Professional Model"), Present("Working with international brands and fashion houses"), Present(0)),
     Experience(Present("2018-2020"), Present("Fashion Model"), Present("Runway and editorial modeling"), Present(1))]
  }

  function SeedSkills(): seq<Skill> {
    [Skill(Present("Runway Modeling"), Present(95), Present(0)),
     Skill(Present("Photo Shoots"), Present(90), Present(1)),
     Skill(Present("Commercial Modeling"), Present(85), Present(2))]
  }

  const SeedStory := "I am a professional model with years of experience in the fashion industry. My passion for modeling started at a young age, and I have worked with numerous brands and designers around the world."

  /** The document GET creates. */
  function Seed(): About {
    About(
      Present("https://images.unsplash.com/photo-1494790108377-be9c29b29330?w=800"),
      Present("My Story"),
      Present(SeedStory),
      Present(SeedExperiences()),
      Present(SeedSkills()))
  }

  function FetchFailure(e: Thrown): string { "Failed to fetch about data" }

  /** A failed PATCH reports the thrown error's own message. */
  function UpdateFailure(e: Thrown): string { MessageOr(e, "Failed to update about data") }

  const Refusal := "Unauthorized - Please login"

  method Get(t: Table<About>, fault: Option<Thrown>, stamp: Stamp) returns (r: Response<Row<About>>)
    modifies t
    ensures var (o, rows) := Singleton.Get(old(t.rows), fault, Create(Seed()), stamp);
      t.rows == rows && r == Respond(o, Refusal, FetchFailure)
  {
    SeedAccepted();
    var o := ServeGet(t, fault, Create(Seed()), stamp);
    r := Respond(o, Refusal, FetchFailure);
  }

  /** PATCH. The session comes from `getServerSession()` without the site's options;
      here it is only present or not. */
  method Patch(t: Table<About>, session: bool, fault: Option<Thrown>, body: About, stamp: Stamp)
    returns (r: Response<Row<About>>)
    modifies t
    ensures var (o, rows) := Singleton.Patch(old(t.rows), session, fault, body, Create, Update, stamp);
      t.rows == rows && r == Respond(o, Refusal, UpdateFailure)
  {
    var o := ServePatch(t, session, fault, body, Create, Update, stamp);
    r := Respond(o, Refusal, UpdateFailure);
  }

  /** The literal document is accepted and stored as written: two experiences with
      orders 0 and 1, three skills with levels 95, 90, 85 and orders 0, 1, 2. */
  lemma SeedAccepted()
    ensures Create(Seed()) == Ok(Seed())
    ensures |SeedExperiences()| == 2 && forall i :: 0 <= i < 2 ==> SeedExperiences()[i].order == Present(i)
    ensures |SeedSkills()| == 3 && forall i :: 0 <= i < 3 ==> SeedSkills()[i].order == Present(i)
    ensures SeedSkills()[0].level == Present(95) && SeedSkills()[1].level == Present(90) && SeedSkills()[2].level == Present(85)
  {
    SeedExperiencesCast();
    SeedSkillsCast();
    assert Cast(Seed()) == Seed();
  }

  lemma SeedExperiencesCast()
    ensures CastEach(Present(SeedExperiences()), CastExperience) == Present(SeedExperiences())
    ensures Each(Present(SeedExperiences()), ValidExperience)
  {
    var e := SeedExperiences();
    var ce := CastEach(Present(e), CastExperience);
    assert ce.value[0] == e[0] && ce.value[1] == e[1];
    assert ce.value == e;
    assert ValidExperience(e[0]) && ValidExperience(e[1]);
  }

  lemma SeedSkillsCast()
    ensures CastEach(Present(SeedSkills()), CastSkill) == Present(SeedSkills())
    ensures Each(Present(SeedSkills()), ValidSkill)
  {
    var k := SeedSkills();
    var ck := CastEach(Present(k), CastSkill);
    assert ck.value[0] == k[0] && ck.value[1] == k[1] && ck.value[2] == k[2];
    assert ck.value == k;
    assert ValidSkill(k[0]) && ValidSkill(k[1]) && ValidSkill(k[2]);
  }

  /** A failed PATCH carries the thrown error's message, with status 500. */
  lemma PatchFailureMessage(rows: seq<Row<About>>, e: Thrown, body: About, stamp: Stamp)
    ensures Respond(Singleton.Patch(rows, true, Some(e), body, Create, Update, stamp).0, Refusal, UpdateFailure)
      == Fail(500, if e.JsError? then e.message else "Failed to update about data")
  {
  }
}
