/** The state transitions of `components/Editor.tsx`. The Editor owns no
    resume state: every handler maps the current record to a new one that
    it hands back (copy-on-write). Fresh ids (`Date.now()`) and the AI
    provider are parameters; ids are not assumed unique. */
module Editor {
  import opened Wrappers
  import opened Types
  import Entries
  import Gateway
  import JsString

  // ---- the accordion --------------------------------------------------

  /** The four collapsible sections of the form. */
  datatype Section = Personal | Experience | EducationSection | SkillsSection

  /** Which section is expanded: none, or exactly one. */
  type ActiveSection = Option<Section>

  /** A section is rendered expanded exactly when it is the active one. */
  predicate IsOpen(active: ActiveSection, s: Section)
  {
    active == Some(s)
  }

  /** The form starts with the personal section open. */
  function InitialSection(): (a: ActiveSection)
    ensures forall s :: IsOpen(a, s) <==> s == Personal
  {
    Some(Personal)
  }

  /** `toggleSection`: closes `s` when it is the open section, otherwise
      opens `s` and thereby closes whichever section was open. */
  function ToggleSection(active: ActiveSection, s: Section): (r: ActiveSection)
    ensures forall t :: IsOpen(r, t) <==> t == s && !IsOpen(active, s)
  {
    if active == Some(s) then None else Some(s)
  }

  /** Toggling the same section twice restores the accordion exactly when
      that section or none was open before; toggling it twice from another
      open section leaves everything closed. */
  lemma ToggleTwice(active: ActiveSection, s: Section)
    ensures active in {None, Some(s)} ==> ToggleSection(ToggleSection(active, s), s) == active
    ensures active !in {None, Some(s)} ==> ToggleSection(ToggleSection(active, s), s) == None
  {
  }

  // ---- field addressing -----------------------------------------------

  /** The scalar fields of the resume record. */
  datatype TextField = FullName | Email | Phone | Location | Linkedin | Summary | JobTitle

  /** Reads one scalar field. */
  function TextOf(d: ResumeData, f: TextField): string
  {
    match f
    case FullName => d.fullName
    case Email => d.email
    case Phone => d.phone
    case Location => d.location
    case Linkedin => d.linkedin
    case Summary => d.summary
    case JobTitle => d.jobTitle
  }

  /** The parts of a record one edit may touch: one scalar field or one of
      the three entry sequences. */
  datatype Part = Text(field: TextField) | WorkPart | EducationPart | SkillsPart

  /** `a` and `b` agree on every part other than `p`. */
  predicate AgreeOutside(a: ResumeData, b: ResumeData, p: Part)
  {
    && (forall f :: Text(f) != p ==> TextOf(a, f) == TextOf(b, f))
    && (p != WorkPart ==> a.workExperience == b.workExperience)
    && (p != EducationPart ==> a.education == b.education)
    && (p != SkillsPart ==> a.skills == b.skills)
  }

  /** Records that agree on every part are equal. */
  lemma AgreeEverywhere(a: ResumeData, b: ResumeData)
    requires AgreeOutside(a, b, Text(Summary))
    requires TextOf(a, Summary) == TextOf(b, Summary)
    ensures a == b
  {
    assert TextOf(a, FullName) == TextOf(b, FullName);
    assert TextOf(a, Email) == TextOf(b, Email);
    assert TextOf(a, Phone) == TextOf(b, Phone);
    assert TextOf(a, Location) == TextOf(b, Location);
    assert TextOf(a, Linkedin) == TextOf(b, Linkedin);
    assert TextOf(a, JobTitle) == TextOf(b, JobTitle);
  }

  /** The argument of `updateField(field, value)`: the source passes a key
      and an untyped value; here each key comes with a value of its type. */
  datatype FieldUpdate =
    | SetText(field: TextField, text: string)
    | SetWorkExperience(work: seq<WorkExperience>)
    | SetEducation(education: seq<Education>)
    | SetSkills(skills: seq<Skill>)
  {
    function Target(): Part
    {
      match this
      case SetText(f, _) => Text(f)
      case SetWorkExperience(_) => WorkPart
      case SetEducation(_) => EducationPart
      case SetSkills(_) => SkillsPart
    }
  }

  /** `updateField`: the named field holds the new value and every other
      field is unchanged. */
  function UpdateField(d: ResumeData, u: FieldUpdate): (r: ResumeData)
    ensures AgreeOutside(d, r, u.Target())
    ensures u.SetText? ==> TextOf(r, u.field) == u.text
    ensures u.SetWorkExperience? ==> r.workExperience == u.work
    ensures u.SetEducation? ==> r.education == u.education
    ensures u.SetSkills? ==> r.skills == u.skills
  {
    match u
    case SetText(f, v) =>
      (match f
       case FullName => d.(fullName := v)
       case Email => d.(email := v)
       case Phone => d.(phone := v)
       case Location => d.(location := v)
       case Linkedin => d.(linkedin := v)
       case Summary => d.(summary := v)
       case JobTitle => d.(jobTitle := v))
    case SetWorkExperience(w) => d.(workExperience := w)
    case SetEducation(e) => d.(education := e)
    case SetSkills(s) => d.(skills := s)
  }

  /** Setting a field to the value it already holds changes nothing. */
  lemma UpdateFieldUnchanged(d: ResumeData, f: TextField)
    ensures UpdateField(d, SetText(f, TextOf(d, f))) == d
  {
    var r := UpdateField(d, SetText(f, TextOf(d, f)));
    assert TextOf(r, f) == TextOf(d, f);
  }

  // ---- work experience --------------------------------------------------

  /** The keys of a work entry (`keyof WorkExperience`), the id included. */
  datatype WorkField = WorkIdField | Company | Role | StartDate | EndDate | Description

  function WorkFieldOf(w: WorkExperience, f: WorkField): string
  {
    match f
    case WorkIdField => w.id
    case Company => w.company
    case Role => w.role
    case StartDate => w.startDate
    case EndDate => w.endDate
    case Description => w.description
  }

  /** `{ ...exp, [field]: value }`: field `f` holds `v`, the others are kept. */
  function SetWorkField(w: WorkExperience, f: WorkField, v: string): (r: WorkExperience)
    ensures WorkFieldOf(r, f) == v
    ensures forall g :: g != f ==> WorkFieldOf(r, g) == WorkFieldOf(w, g)
  {
    match f
    case WorkIdField => w.(id := v)
    case Company => w.(company := v)
    case Role => w.(role := v)
    case StartDate => w.(startDate := v)
    case EndDate => w.(endDate := v)
    case Description => w.(description := v)
  }

  /** `addWorkExperience`: appends a blank entry carrying the fresh id. */
  function AddWorkExperience(d: ResumeData, freshId: string): (r: ResumeData)
    ensures AgreeOutside(d, r, WorkPart)
    ensures |r.workExperience| == |d.workExperience| + 1
    ensures r.workExperience[..|d.workExperience|] == d.workExperience
    ensures var w := r.workExperience[|d.workExperience|];
            w.id == freshId && forall g :: g != WorkIdField ==> WorkFieldOf(w, g) == ""
  {
    UpdateField(d, SetWorkExperience(d.workExperience + [WorkExperience(freshId, "", "", "", "", "")]))
  }

  /** `removeWorkExperience`: keeps exactly the entries whose id differs,
      with their multiplicities, in their original relative order. */
  function RemoveWorkExperience(d: ResumeData, id: string): (r: ResumeData)
    ensures AgreeOutside(d, r, WorkPart)
    ensures |r.workExperience| == |d.workExperience| - Entries.CountId(d.workExperience, WorkId, id)
    ensures forall w :: multiset(r.workExperience)[w] == if w.id == id then 0 else multiset(d.workExperience)[w]
    ensures r.workExperience == Entries.RemoveById(d.workExperience, WorkId, id)
  {
    Entries.RemoveByIdContents(d.workExperience, WorkId, id);
    UpdateField(d, SetWorkExperience(Entries.RemoveById(d.workExperience, WorkId, id)))
  }

  /** `updateWorkExperience`: every entry with the id gets `v` in field `f`
      and keeps its other fields; every other entry, and the length, is
      unchanged. */
  function UpdateWorkExperience(d: ResumeData, id: string, f: WorkField, v: string): (r: ResumeData)
    ensures AgreeOutside(d, r, WorkPart)
    ensures |r.workExperience| == |d.workExperience|
    ensures forall i :: 0 <= i < |d.workExperience| && d.workExperience[i].id != id ==>
              r.workExperience[i] == d.workExperience[i]
    ensures forall i :: 0 <= i < |d.workExperience| && d.workExperience[i].id == id ==>
              && WorkFieldOf(r.workExperience[i], f) == v
              && forall g :: g != f ==> WorkFieldOf(r.workExperience[i], g) == WorkFieldOf(d.workExperience[i], g)
  {
    UpdateField(d, SetWorkExperience(
      Entries.UpdateById(d.workExperience, WorkId, id, w => SetWorkField(w, f, v))))
  }

  /** Applying the same work update twice is the same as applying it once,
      even when the updated field is the id itself. */
  lemma UpdateWorkExperienceIdempotent(d: ResumeData, id: string, f: WorkField, v: string)
    ensures UpdateWorkExperience(UpdateWorkExperience(d, id, f, v), id, f, v) == UpdateWorkExperience(d, id, f, v)
  {
    var once := UpdateWorkExperience(d, id, f, v);
    var twice := UpdateWorkExperience(once, id, f, v);
    forall i | 0 <= i < |d.workExperience|
      ensures twice.workExperience[i] == once.workExperience[i]
    {
      var w := once.workExperience[i];
      if w.id == id {
        var w2 := twice.workExperience[i];
        assert WorkFieldOf(w2, f) == WorkFieldOf(w, f);
        assert forall g :: WorkFieldOf(w2, g) == WorkFieldOf(w, g);
        assert WorkFieldOf(w2, WorkIdField) == WorkFieldOf(w, WorkIdField);
        assert WorkFieldOf(w2, Company) == WorkFieldOf(w, Company);
        assert WorkFieldOf(w2, Role) == WorkFieldOf(w, Role);
        assert WorkFieldOf(w2, StartDate) == WorkFieldOf(w, StartDate);
        assert WorkFieldOf(w2, EndDate) == WorkFieldOf(w, EndDate);
        assert WorkFieldOf(w2, Description) == WorkFieldOf(w, Description);
      }
    }
    assert twice.workExperience == once.workExperience;
  }

  /** Removing the id of a just-added entry undoes the addition (along with
      any older entry that happened to carry the same id). */
  lemma RemoveAfterAddWorkExperience(d: ResumeData, freshId: string)
    ensures RemoveWorkExperience(AddWorkExperience(d, freshId), freshId) == RemoveWorkExperience(d, freshId)
  {
    var added := AddWorkExperience(d, freshId);
    assert added.workExperience == d.workExperience + [added.workExperience[|d.workExperience|]];
    Entries.RemoveByIdAppend(d.workExperience, [added.workExperience[|d.workExperience|]], WorkId, freshId);
  }

  // ---- education ------------------------------------------------------

  /** The keys of an education entry, the id included. */
  datatype EducationField = EducationIdField | School | Degree | GraduationDate

  function EducationFieldOf(e: Education, f: EducationField): string
  {
    match f
    case EducationIdField => e.id
    case School => e.school
    case Degree => e.degree
    case GraduationDate => e.graduationDate
  }

  /** `{ ...e, [field]: value }` on an education entry. */
  function SetEducationField(e: Education, f: EducationField, v: string): (r: Education)
    ensures EducationFieldOf(r, f) == v
    ensures forall g :: g != f ==> EducationFieldOf(r, g) == EducationFieldOf(e, g)
  {
    match f
    case EducationIdField => e.(id := v)
    case School => e.(school := v)
    case Degree => e.(degree := v)
    case GraduationDate => e.(graduationDate := v)
  }

  /** `addEducation`: appends a blank entry carrying the fresh id. */
  function AddEducation(d: ResumeData, freshId: string): (r: ResumeData)
    ensures AgreeOutside(d, r, EducationPart)
    ensures |r.education| == |d.education| + 1
    ensures r.education[..|d.education|] == d.education
    ensures var e := r.education[|d.education|];
            e.id == freshId && forall g :: g != EducationIdField ==> EducationFieldOf(e, g) == ""
  {
    UpdateField(d, SetEducation(d.education + [Education(freshId, "", "", "")]))
  }

  /** `removeEducation`: keeps exactly the entries whose id differs, in
      their original relative order. */
  function RemoveEducation(d: ResumeData, id: string): (r: ResumeData)
    ensures AgreeOutside(d, r, EducationPart)
    ensures |r.education| == |d.education| - Entries.CountId(d.education, EducationId, id)
    ensures forall e :: multiset(r.education)[e] == if e.id == id then 0 else multiset(d.education)[e]
    ensures r.education == Entries.RemoveById(d.education, EducationId, id)
  {
    Entries.RemoveByIdContents(d.education, EducationId, id);
    UpdateField(d, SetEducation(Entries.RemoveById(d.education, EducationId, id)))
  }

  /** `updateEducation`: every entry with the id gets `v` in field `f` and
      keeps its other fields; every other entry is unchanged. */
  function UpdateEducation(d: ResumeData, id: string, f: EducationField, v: string): (r: ResumeData)
    ensures AgreeOutside(d, r, EducationPart)
    ensures |r.education| == |d.education|
    ensures forall i :: 0 <= i < |d.education| && d.education[i].id != id ==>
              r.education[i] == d.education[i]
    ensures forall i :: 0 <= i < |d.education| && d.education[i].id == id ==>
              && EducationFieldOf(r.education[i], f) == v
              && forall g :: g != f ==> EducationFieldOf(r.education[i], g) == EducationFieldOf(d.education[i], g)
  {
    UpdateField(d, SetEducation(
      Entries.UpdateById(d.education, EducationId, id, e => SetEducationField(e, f, v))))
  }

  /** Removing the id of a just-added education entry undoes the addition. */
  lemma RemoveAfterAddEducation(d: ResumeData, freshId: string)
    ensures RemoveEducation(AddEducation(d, freshId), freshId) == RemoveEducation(d, freshId)
  {
    var added := AddEducation(d, freshId);
    assert added.education == d.education + [added.education[|d.education|]];
    Entries.RemoveByIdAppend(d.education, [added.education[|d.education|]], EducationId, freshId);
  }

  // ---- skills ---------------------------------------------------------

  /** `addSkill`: appends a skill with the fresh id, an empty name and the
      level Intermediate. */
  function AddSkill(d: ResumeData, freshId: string): (r: ResumeData)
    ensures AgreeOutside(d, r, SkillsPart)
    ensures |r.skills| == |d.skills| + 1
    ensures r.skills[..|d.skills|] == d.skills
    ensures var s := r.skills[|d.skills|]; s.id == freshId && s.name == "" && s.level == Intermediate
  {
    UpdateField(d, SetSkills(d.skills + [Skill(freshId, "", Intermediate)]))
  }

  /** `removeSkill`: keeps exactly the skills whose id differs, in their
      original relative order. */
  function RemoveSkill(d: ResumeData, id: string): (r: ResumeData)
    ensures AgreeOutside(d, r, SkillsPart)
    ensures |r.skills| == |d.skills| - Entries.CountId(d.skills, SkillId, id)
    ensures forall s :: multiset(r.skills)[s] == if s.id == id then 0 else multiset(d.skills)[s]
    ensures r.skills == Entries.RemoveById(d.skills, SkillId, id)
  {
    Entries.RemoveByIdContents(d.skills, SkillId, id);
    UpdateField(d, SetSkills(Entries.RemoveById(d.skills, SkillId, id)))
  }

  /** `updateSkill`: renames every skill with the id; ids and levels are
      kept and every other skill is unchanged. */
  function UpdateSkill(d: ResumeData, id: string, name: string): (r: ResumeData)
    ensures AgreeOutside(d, r, SkillsPart)
    ensures |r.skills| == |d.skills|
    ensures forall i :: 0 <= i < |d.skills| && d.skills[i].id != id ==> r.skills[i] == d.skills[i]
    ensures forall i :: 0 <= i < |d.skills| && d.skills[i].id == id ==>
              r.skills[i].name == name && r.skills[i].id == id && r.skills[i].level == d.skills[i].level
  {
    UpdateField(d, SetSkills(Entries.UpdateById(d.skills, SkillId, id, (s: Skill) => s.(name := name))))
  }

  /** Removing the id of a just-added skill undoes the addition. */
  lemma RemoveAfterAddSkill(d: ResumeData, freshId: string)
    ensures RemoveSkill(AddSkill(d, freshId), freshId) == RemoveSkill(d, freshId)
  {
    var added := AddSkill(d, freshId);
    assert added.skills == d.skills + [added.skills[|d.skills|]];
    Entries.RemoveByIdAppend(d.skills, [added.skills[|d.skills|]], SkillId, freshId);
  }

  /** Renaming skills never changes which skills a removal keeps out:
      removing after a rename equals removing before it. */
  lemma RemoveAfterUpdateSkill(d: ResumeData, id: string, name: string)
    ensures RemoveSkill(UpdateSkill(d, id, name), id) == RemoveSkill(d, id)
  {
    RemoveRenamed(d.skills, UpdateSkill(d, id, name).skills, id);
  }

  lemma {:induction false} RemoveRenamed(s: seq<Skill>, t: seq<Skill>, id: string)
    requires |t| == |s|
    requires forall i :: 0 <= i < |s| && s[i].id != id ==> t[i] == s[i]
    requires forall i :: 0 <= i < |s| && s[i].id == id ==> t[i].id == id
    ensures Entries.RemoveById(t, SkillId, id) == Entries.RemoveById(s, SkillId, id)
  {
    if |s| > 0 {
      RemoveRenamed(s[1..], t[1..], id);
    }
  }

  // ---- AI-assisted handlers ----------------------------------------------

  /** The guard of `handleEnhanceDescription`: the first entry with the id,
      provided its description is non-empty; None means no request is
      issued. */
  function EnhanceTarget(d: ResumeData, id: string): (r: Option<WorkExperience>)
    ensures r.None? <==>
              (forall i :: 0 <= i < |d.workExperience| ==> d.workExperience[i].id != id)
              || Entries.FindById(d.workExperience, WorkId, id).entry.description == ""
    ensures r.Some? ==> r.value.id == id && r.value.description != "" && r.value in d.workExperience
    ensures r.Some? ==> r.value == Entries.FindById(d.workExperience, WorkId, id).entry
  {
    match Entries.FindById(d.workExperience, WorkId, id)
    case NotFound => None
    case Found(_, w) => if w.description == "" then None else Some(w)
  }

  /** `handleEnhanceDescription`: without a target nothing is sent and the
      record is returned as it was; otherwise the entry's role, company and
      description are sent once and the answer (or, on any failure, the
      original description) is written into the description of every entry
      with that id. */
  function HandleEnhanceDescription(d: ResumeData, id: string, provider: string -> Gateway.Reply)
    : (r: Gateway.Traced<ResumeData>)
    ensures EnhanceTarget(d, id).None? ==> r.value == d && r.prompts == []
    ensures EnhanceTarget(d, id).Some? ==>
              var w := EnhanceTarget(d, id).value;
              var enhanced := Gateway.EnhanceWorkDescription(w.role, w.company, w.description, provider);
              && r.prompts == [Gateway.EnhancePrompt(w.role, w.company, w.description)]
              && r.value == UpdateWorkExperience(d, id, Description, enhanced.value)
  {
    match EnhanceTarget(d, id)
    case None => Gateway.Traced(d, [])
    case Some(w) =>
      var enhanced := Gateway.EnhanceWorkDescription(w.role, w.company, w.description, provider);
      Gateway.Traced(UpdateWorkExperience(d, id, Description, enhanced.value), enhanced.prompts)
  }

  /** When the id is unique, a failed enhancement leaves the record as it
      was: the fallback writes the entry's own description back. */
  lemma EnhanceFailureKeepsRecord(d: ResumeData, id: string, provider: string -> Gateway.Reply)
    requires Entries.CountId(d.workExperience, WorkId, id) <= 1
    requires EnhanceTarget(d, id).Some?
    requires var w := EnhanceTarget(d, id).value;
             provider(Gateway.EnhancePrompt(w.role, w.company, w.description)) in {Gateway.Fail, Gateway.Text("")}
    ensures HandleEnhanceDescription(d, id, provider).value == d
  {
    var k := Entries.FindById(d.workExperience, WorkId, id).index;
    var r := HandleEnhanceDescription(d, id, provider).value;
    forall i | 0 <= i < |d.workExperience| && d.workExperience[i].id == id
      ensures i == k
    {
      if i != k {
        Entries.CountIdAtLeastTwo(d.workExperience, WorkId, id, i, k);
      }
    }
    forall i | 0 <= i < |d.workExperience|
      ensures r.workExperience[i] == d.workExperience[i]
    {
      if d.workExperience[i].id == id {
        var a := r.workExperience[i];
        var b := d.workExperience[i];
        assert WorkFieldOf(a, WorkIdField) == WorkFieldOf(b, WorkIdField);
        assert WorkFieldOf(a, Company) == WorkFieldOf(b, Company);
        assert WorkFieldOf(a, Role) == WorkFieldOf(b, Role);
        assert WorkFieldOf(a, StartDate) == WorkFieldOf(b, StartDate);
        assert WorkFieldOf(a, EndDate) == WorkFieldOf(b, EndDate);
        assert WorkFieldOf(a, Description) == WorkFieldOf(b, Description);
      }
    }
    assert r.workExperience == d.workExperience;
    AgreeEverywhere(d, r);
  }

  /** With two entries sharing an id, a FAILED enhancement still rewrites
      the second entry: it receives the first entry's description. */
  lemma EnhanceFailureWithSharedId()
    ensures
      var a := WorkExperience("7", "Acme", "Dev", "", "", "first");
      var b := WorkExperience("7", "Beta", "Ops", "", "", "second");
      var d := ResumeData("", "", "", "", "", "", [a, b], [], [], "");
      HandleEnhanceDescription(d, "7", _ => Gateway.Fail).value.workExperience[1].description == "first"
  {
  }

  /** `handleGenerateSummary`: sends the summary prompt once and stores the
      answer in `summary`; every other field is unchanged. */
  function HandleGenerateSummary(d: ResumeData, provider: string -> Gateway.Reply)
    : (r: Gateway.Traced<ResumeData>)
    ensures r.prompts == [Gateway.SummaryPrompt(d)]
    ensures AgreeOutside(d, r.value, Text(Summary))
    ensures r.value.summary == Gateway.GenerateProfessionalSummary(d, provider).value
  {
    var generated := Gateway.GenerateProfessionalSummary(d, provider);
    Gateway.Traced(UpdateField(d, SetText(Summary, generated.value)), generated.prompts)
  }

  /** A failed generation clears a summary the user had written. */
  lemma SummaryFailureClearsSummary(d: ResumeData, provider: string -> Gateway.Reply)
    requires provider(Gateway.SummaryPrompt(d)) in {Gateway.Fail, Gateway.Text("")}
    ensures HandleGenerateSummary(d, provider).value == d.(summary := "")
  {
    var r := HandleGenerateSummary(d, provider).value;
    AgreeEverywhere(r, d.(summary := ""));
  }

  // ---- the summary prompt after edits --------------------------------------

  /** Adding a skill adds an empty name to the prompt's Skills line: the line
      gains a trailing ", " (or stays empty when there were no skills). */
  lemma SkillsLineAfterAddSkill(d: ResumeData, freshId: string)
    ensures Gateway.SkillsLine(AddSkill(d, freshId)) ==
              if |d.skills| == 0 then "" else Gateway.SkillsLine(d) + ", "
  {
    var r := AddSkill(d, freshId);
    assert r.skills == d.skills + [r.skills[|d.skills|]];
    var names := SkillNames(d.skills);
    assert SkillNames(r.skills) == names + [""];
    if |d.skills| > 0 {
      JsString.JoinSnoc(names, "", ", ");
    }
  }

  /** Adding a work entry adds the item " at " to the Experience line. */
  lemma ExperienceLineAfterAddWork(d: ResumeData, freshId: string)
    ensures Gateway.ExperienceLine(AddWorkExperience(d, freshId)) ==
              if |d.workExperience| == 0 then " at " else Gateway.ExperienceLine(d) + ", " + " at "
  {
    var r := AddWorkExperience(d, freshId);
    assert r.workExperience == d.workExperience + [r.workExperience[|d.workExperience|]];
    var items := Gateway.ExperienceItems(d.workExperience);
    var blank := r.workExperience[|d.workExperience|];
    assert blank.role == "" && blank.company == "" by {
      assert WorkFieldOf(blank, Role) == "" && WorkFieldOf(blank, Company) == "";
    }
    assert Gateway.RoleAtCompany(blank) == " at ";
    assert Gateway.ExperienceItems(r.workExperience) == items + [" at "];
    if |d.workExperience| > 0 {
      JsString.JoinSnoc(items, " at ", ", ");
    }
  }
}
