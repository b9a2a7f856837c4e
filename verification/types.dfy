/** The resume domain model of `types.ts`: plain records without behaviour.
    Every text field is a `string`; ids are opaque strings that are not
    guaranteed to be unique (they come from the wall clock). */
module Types {

  /** The three-valued proficiency of a skill. */
  datatype Level = Beginner | Intermediate | Expert

  datatype WorkExperience = WorkExperience(
    id: string,
    company: string,
    role: string,
    startDate: string,
    endDate: string,
    description: string)

  datatype Education = Education(
    id: string,
    school: string,
    degree: string,
    graduationDate: string)

  datatype Skill = Skill(id: string, name: string, level: Level)

  datatype ResumeData = ResumeData(
    fullName: string,
    email: string,
    phone: string,
    location: string,
    linkedin: string,
    summary: string,
    workExperience: seq<WorkExperience>,
    education: seq<Education>,
    skills: seq<Skill>,
    jobTitle: string)

  /** The structured judgment returned by the analysis call. The score is
      a plain number: nothing bounds it to 0..100. */
  datatype ATSAnalysisResult = ATSAnalysisResult(
    score: real,
    matchPercentage: real,
    missingKeywords: seq<string>,
    suggestions: seq<string>,
    summaryFeedback: string)

  /** The template enumeration; each member stands for its string tag. */
  datatype TemplateType = Classic | Modern | Minimalist {

    function Tag(): (tag: string)
    {
      match this
      case Classic => "classic"
      case Modern => "modern"
      case Minimalist => "minimalist"
    }
  }

  /** Id projections, used to key the generic entry-sequence operations. */
  function WorkId(w: WorkExperience): string { w.id }
  function EducationId(e: Education): string { e.id }
  function SkillId(s: Skill): string { s.id }

  /** `skills.map(s => s.name)`: one name per skill, in order. The summary
      prompt and every template's skills section both list the names. */
  function SkillNames(skills: seq<Skill>): (names: seq<string>)
    ensures |names| == |skills|
    ensures forall i :: 0 <= i < |skills| ==> names[i] == skills[i].name
  {
    if |skills| == 0 then [] else [skills[0].name] + SkillNames(skills[1..])
  }
}
