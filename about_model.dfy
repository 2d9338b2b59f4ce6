/** `AboutSchema` (models/About.ts): the about page, with its experiences and skills
    as arrays of sub-documents. */
module AboutModel {
  import opened Common
  import opened Schema

  datatype Experience = Experience(year: Field<string>, title: Field<string>, description: Field<string>, order: Field<int>)

  datatype Skill = Skill(name: Field<string>, level: Field<int>, order: Field<int>)

  datatype About = About(
    profileImage: Field<string>,
    storyTitle: Field<string>,
    storyContent: Field<string>,
    experiences: Field<seq<Experience>>,
    skills: Field<seq<Skill>>)

  /** `ExperienceSchema`: `order` 0 when not given. */
  function CastExperience(e: Experience): (r: Experience)
    ensures r.order == WithDefault(e.order, 0)
    ensures r.year == e.year && r.title == e.title && r.description == e.description
  {
    e.(order := WithDefault(e.order, 0))
  }

  /** `SkillSchema`: `order` 0 when not given. */
  function CastSkill(s: Skill): (r: Skill)
    ensures r.order == WithDefault(s.order, 0)
    ensures r.name == s.name && r.level == s.level
  {
    s.(order := WithDefault(s.order, 0))
  }

  predicate ValidExperience(e: Experience) {
    RequiredText(e.year) && RequiredText(e.title) && RequiredText(e.description)
  }

  predicate ValidSkill(s: Skill) {
    RequiredText(s.name) && RequiredValue(s.level) && InRange(s.level, 0, 100)
  }

  /** Casting on create: every element through its sub-schema, and an array path that
      is not given starts as []. */
  function Cast(b: About): About {
    About(
      b.profileImage, b.storyTitle, b.storyContent,
      WithDefault(CastEach(b.experiences, CastExperience), []),
      WithDefault(CastEach(b.skills, CastSkill), []))
  }

  predicate Valid(a: About) {
    RequiredText(a.profileImage) && RequiredText(a.storyTitle) && RequiredText(a.storyContent)
    && Each(a.experiences, ValidExperience) && Each(a.skills, ValidSkill)
  }

  /** `About.create(body)` */
  function Create(b: About): (r: Result<About>)
    ensures r.Ok? ==> Valid(r.value)
    ensures r.Ok? ==> r.value == Cast(b)
    ensures r.Err? ==> r.error == ValidationError("About") && !Valid(Cast(b))
  {
    var d := Cast(b);
    if Valid(d) then Ok(d) else Err(ValidationError("About"))
  }

  /** `About.findOneAndUpdate({}, body, { runValidators: true })`: each path the body
      gives is cast and validated and then replaces the stored one; the other paths
      are kept. */
  function Update(stored: About, b: About): (r: Result<About>)
    ensures r.Ok? ==> Valid(stored) ==> Valid(r.value)
    ensures r.Err? ==> r.error == ValidationError("About")
  {
    var e := CastEach(b.experiences, CastExperience);
    var k := CastEach(b.skills, CastSkill);
    if GivenOk(b.profileImage, RequiredText) && GivenOk(b.storyTitle, RequiredText)
       && GivenOk(b.storyContent, RequiredText)
       && Each(e, ValidExperience) && Each(k, ValidSkill)
    then
      Ok(About(
        Overwrite(stored.profileImage, b.profileImage),
        Overwrite(stored.storyTitle, b.storyTitle),
        Overwrite(stored.storyContent, b.storyContent),
        Overwrite(stored.experiences, e),
        Overwrite(stored.skills, k)))
    else Err(ValidationError("About"))
  }

  /** A skill level is accepted exactly when it is a number from 0 to 100; an
      experience needs all three texts. */
  lemma SkillAcceptsIff(s: Skill)
    ensures ValidSkill(CastSkill(s)) <==> RequiredText(s.name) && s.level.Present? && 0 <= s.level.value <= 100
  {
  }

  /** An array that is not given is stored as []; every stored experience and skill
      has an `order`, 0 when it was not given, and keeps its place in the array. */
  lemma CreateOrders(b: About)
    requires Create(b).Ok?
    ensures var d := Create(b).value;
      (b.experiences.Absent? ==> d.experiences == Present([]))
      && (b.skills.Absent? ==> d.skills == Present([]))
      && (b.experiences.Present? ==>
            (|d.experiences.value| == |b.experiences.value|
             && forall i :: 0 <= i < |b.experiences.value| ==>
                  d.experiences.value[i].order == WithDefault(b.experiences.value[i].order, 0)
                  && d.experiences.value[i].title == b.experiences.value[i].title))
      && (b.skills.Present? ==>
            (|d.skills.value| == |b.skills.value|
             && forall i :: 0 <= i < |b.skills.value| ==>
                  d.skills.value[i].order == WithDefault(b.skills.value[i].order, 0)
                  && d.skills.value[i].level == b.skills.value[i].level))
  {
    assert Create(b).value == Cast(b);
  }

  /** The update keeps exactly the paths the body leaves out, `null` included among
      the ones it gives; a refused update changes nothing. */
  lemma UpdateOverwrites(stored: About, b: About)
    requires Update(stored, b).Ok?
    ensures var d := Update(stored, b).value;
      (b.profileImage.Absent? ==> d.profileImage == stored.profileImage)
      && (!b.profileImage.Absent? ==> d.profileImage == b.profileImage)
      && (b.storyTitle.Absent? ==> d.storyTitle == stored.storyTitle)
      && (!b.storyTitle.Absent? ==> d.storyTitle == b.storyTitle)
      && (b.storyContent.Absent? ==> d.storyContent == stored.storyContent)
      && (!b.storyContent.Absent? ==> d.storyContent == b.storyContent)
      && (b.experiences.Absent? ==> d.experiences == stored.experiences)
      && (!b.experiences.Absent? ==> d.experiences == CastEach(b.experiences, CastExperience))
      && (b.skills.Absent? ==> d.skills == stored.skills)
      && (!b.skills.Absent? ==> d.skills == CastEach(b.skills, CastSkill))
  {
  }

  /** An empty update body leaves the stored document as it was. */
  lemma UpdateEmptyKeeps(stored: About)
    ensures Update(stored, About(Absent, Absent, Absent, Absent, Absent)) == Ok(stored)
  {
  }

  /** An update that sets `null` on a required text is refused. */
  lemma UpdateRefusesNull(stored: About, b: About)
    requires b.profileImage.Null? || b.storyTitle.Null? || b.storyContent.Null?
    ensures Update(stored, b).Err?
  {
  }
}
