/**
 * The profile editor of frontend/src/pages/Profile.js: how the signed-in
 * user's profile fills the form, and the update the form submits.
 */
module ProfileForm {
  import opened Wrappers
  import opened Text
  import opened FormLists

  /** The profile fields the page reads; any of them may be missing. */
  datatype Profile = Profile(
    name: Option<string>,
    phone: Option<string>,
    location: Option<string>,
    bio: Option<string>,
    skills: Option<seq<string>>,
    experience: Option<int>)

  /** The form's fields as text; `experience` is a number input, `None` when empty. */
  datatype Form = Form(
    name: string,
    phone: string,
    location: string,
    bio: string,
    skills: string,
    experience: Option<int>)

  /** The update `handleSubmit` sends. */
  datatype ProfileUpdate = ProfileUpdate(
    name: string,
    phone: string,
    location: string,
    bio: string,
    skills: seq<string>,
    experience: int)

  /** `value || ''` for a text field: a missing or empty value shows as the empty string. */
  function Shown(v: Option<string>): (s: string)
    ensures v.None? ==> s == []
    ensures v.Some? ==> s == v.value
  {
    if v.Some? && v.value != [] then v.value else []
  }

  /**
   * The form filled from a profile: missing text fields and missing skills
   * show as the empty string, skills joined with ", ", and an experience of
   * 0 or none as an empty input.
   */
  function FormOf(u: Profile): (f: Form)
    ensures u.name.None? ==> f.name == []
    ensures u.phone.None? ==> f.phone == []
    ensures u.location.None? ==> f.location == []
    ensures u.bio.None? ==> f.bio == []
    ensures u.skills.None? ==> f.skills == []
    ensures u.skills.Some? && PlainSkills(u.skills.value) ==> SkillsOf(f.skills) == u.skills.value
    ensures f.experience.None? <==> u.experience.None? || u.experience.value == 0
  {
    var skills := if u.skills.Some? then Join(u.skills.value, ", ") else [];
    assert u.skills.Some? && PlainSkills(u.skills.value) ==> SkillsOf(skills) == u.skills.value by {
      if u.skills.Some? && PlainSkills(u.skills.value) {
        SkillsOfJoin(u.skills.value);
      }
    }
    Form(Shown(u.name), Shown(u.phone), Shown(u.location), Shown(u.bio), skills,
         if u.experience.Some? && u.experience.value != 0 then u.experience else None)
  }

  /**
   * The submitted update: text fields as typed, skills split on commas,
   * trimmed and without empty entries, and `Number(experience)` (0 for an
   * empty input).
   */
  function Submit(f: Form): (p: ProfileUpdate)
    ensures PlainSkills(p.skills)
    ensures |p.skills| <= Count(f.skills, ',') + 1
    ensures p.skills == SkillsOf(f.skills)
    ensures f.experience.None? ==> p.experience == 0
    ensures f.experience.Some? ==> p.experience == f.experience.value
    ensures p.name == f.name && p.phone == f.phone && p.location == f.location && p.bio == f.bio
  {
    SkillsArePlain(f.skills);
    ProfileUpdate(f.name, f.phone, f.location, f.bio, SkillsOf(f.skills), f.experience.GetOr(0))
  }

  /**
   * Opening the editor and saving without a change writes the profile back
   * as it was, with missing fields made empty (0 for experience), as long as
   * every skill is non-empty, trimmed and free of commas.
   */
  lemma SaveUnchanged(u: Profile)
    requires u.skills.Some? ==> PlainSkills(u.skills.value)
    ensures Submit(FormOf(u)) == ProfileUpdate(u.name.GetOr([]), u.phone.GetOr([]), u.location.GetOr([]),
                                               u.bio.GetOr([]), u.skills.GetOr([]), u.experience.GetOr(0))
  {
    if u.skills.None? {
      SkillsOfJoin([]);
      assert Join([], ", ") == [];
    }
  }
}
