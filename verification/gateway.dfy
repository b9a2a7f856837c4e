/** The AI gateway of `services/gemini.ts`: three calls to a generative
    text provider. The provider is a parameter: a total function from the
    prompt sent to the reply received, where `Fail` stands for a thrown
    error (network failure, rejected request) and `Text(s)` for a response
    whose text is `s` (an absent text is `Text("")`, since the source only
    tests its truthiness). Every call reports the prompts it sent, so the
    number of provider invocations is observable. */
module Gateway {
  import opened Wrappers
  import opened Types
  import opened JsString

  datatype Reply = Fail | Text(text: string)

  /** A value together with the prompts sent to the provider, in order. */
  datatype Traced<T> = Traced(value: T, prompts: seq<string>)

  /** Why an analysis did not produce a result. The gateway throws four
      different errors (its own two messages, the provider's error rethrown
      and the parser's error); the analysis panel shows one fixed message
      for all of them. */
  datatype AnalysisError =
    | TooShort        // the job description failed the length check
    | ProviderFailed  // the provider call threw
    | NoResponse      // the provider answered with no or empty text
    | ParseFailed     // the answer did not parse as JSON

  /** The message of the two errors the source raises itself. */
  function Message(e: AnalysisError): (m: Option<string>)
    ensures m.Some? <==> e.TooShort? || e.NoResponse?
    ensures e.TooShort? ==> m == Some("Job description is too short for analysis.")
    ensures e.NoResponse? ==> m == Some("No response from AI")
  {
    match e
    case TooShort => Some("Job description is too short for analysis.")
    case NoResponse => Some("No response from AI")
    case _ => None
  }

  /** Shortest job description, in UTF-16 code units, the analysis accepts. */
  const MinJobDescriptionLength: nat := 50

  /** The gate in front of the analysis call: `!jd || jd.length < 50`. The
      empty string is falsy, but it is also shorter than 50, so the length
      test alone decides. */
  predicate JobDescriptionTooShort(jd: string)
  {
    jd == "" || Utf16Length(jd) < MinJobDescriptionLength
  }

  // ---- prompts --------------------------------------------------------

  const AnalysisHead: string :=
    "\n    You are an expert ATS (Applicant Tracking System) analyst.\n"
    + "    Analyze the following resume against the provided job description.\n"
    + "    Provide a match score (0-100), a list of critical missing keywords found in the JD but not the resume,\n"
    + "    specific actionable suggestions to improve the resume for this role, and a brief summary feedback.\n"
    + "\n    RESUME:\n    "
  const AnalysisMiddle: string := "\n\n    JOB DESCRIPTION:\n    "

  /** The analysis prompt around the serialised resume and the job
      description. */
  function AnalysisPrompt(resumeJson: string, jd: string): string
  {
    AnalysisHead + resumeJson + AnalysisMiddle + jd + "\n  "
  }

  /** The analysis prompt carries both the serialised resume and the job
      description verbatim. */
  lemma AnalysisPromptEmbeds(resumeJson: string, jd: string)
    ensures Contains(AnalysisPrompt(resumeJson, jd), resumeJson)
    ensures Contains(AnalysisPrompt(resumeJson, jd), jd)
  {
    ContainsMiddle(AnalysisHead, resumeJson, AnalysisMiddle + jd + "\n  ");
    assert AnalysisPrompt(resumeJson, jd) == AnalysisHead + resumeJson + (AnalysisMiddle + jd + "\n  ");
    ContainsMiddle(AnalysisHead + resumeJson + AnalysisMiddle, jd, "\n  ");
  }

  const EnhanceHead: string :=
    "\n    Rewrite the following work experience description to be more professional, \n"
    + "    action-oriented, and impactful. Use bullet points (\U{2022}) if suitable.\n"
    + "    Keep it concise but detailed enough to show value.\n"
    + "    \n"

  /** The rewrite prompt for one work entry. */
  function EnhancePrompt(role: string, company: string, currentDescription: string): string
  {
    EnhanceHead
    + "    Role: " + role + "\n"
    + "    Company: " + company + "\n"
    + "    Current Description: \"" + currentDescription + "\"\n  "
  }

  /** The rewrite prompt carries role, company and the current description
      verbatim, each on its own labelled line (the description quoted). */
  lemma EnhancePromptEmbeds(role: string, company: string, currentDescription: string)
    ensures Contains(EnhancePrompt(role, company, currentDescription), "    Role: " + role + "\n")
    ensures Contains(EnhancePrompt(role, company, currentDescription), "    Company: " + company + "\n")
    ensures Contains(EnhancePrompt(role, company, currentDescription),
                     "    Current Description: \"" + currentDescription + "\"\n")
  {
    var roleLine := "    Role: " + role + "\n";
    var companyLine := "    Company: " + company + "\n";
    var descLine := "    Current Description: \"" + currentDescription + "\"\n";
    var p := EnhancePrompt(role, company, currentDescription);
    assert p == EnhanceHead + roleLine + (companyLine + descLine + "  ");
    ContainsMiddle(EnhanceHead, roleLine, companyLine + descLine + "  ");
    assert p == (EnhanceHead + roleLine) + companyLine + (descLine + "  ");
    ContainsMiddle(EnhanceHead + roleLine, companyLine, descLine + "  ");
    assert p == (EnhanceHead + roleLine + companyLine) + descLine + "  ";
    ContainsMiddle(EnhanceHead + roleLine + companyLine, descLine, "  ");
  }

  /** `w.role + ' at ' + w.company`. */
  function RoleAtCompany(w: WorkExperience): string
  {
    w.role + " at " + w.company
  }

  /** `resume.workExperience.map(w => w.role + ' at ' + w.company)`. */
  function ExperienceItems(work: seq<WorkExperience>): (items: seq<string>)
    ensures |items| == |work|
    ensures forall i :: 0 <= i < |work| ==> items[i] == RoleAtCompany(work[i])
  {
    if |work| == 0 then [] else [RoleAtCompany(work[0])] + ExperienceItems(work[1..])
  }

  /** The Skills line of the summary prompt: the names, in order,
      separated by ", ". */
  function SkillsLine(resume: ResumeData): string
  {
    Join(SkillNames(resume.skills), ", ")
  }

  /** The Experience line of the summary prompt: "role at company" per
      entry, in order, separated by ", ". */
  function ExperienceLine(resume: ResumeData): string
  {
    Join(ExperienceItems(resume.workExperience), ", ")
  }

  const SummaryHead: string :=
    "\n      Write a compelling, professional summary (3-4 sentences max) for a resume based on the following details.\n"
    + "      Highlight key skills and experience.\n"
    + "      \n"

  /** The summary prompt built from a resume. */
  function SummaryPrompt(resume: ResumeData): string
  {
    SummaryHead
    + "      Name: " + resume.fullName + "\n"
    + "      Target Job: " + resume.jobTitle + "\n"
    + "      Skills: " + SkillsLine(resume) + "\n"
    + "      Experience: " + ExperienceLine(resume) + "\n    "
  }

  /** The summary prompt carries the Skills and Experience lines. */
  lemma SummaryPromptEmbeds(resume: ResumeData)
    ensures Contains(SummaryPrompt(resume), "      Skills: " + SkillsLine(resume) + "\n")
    ensures Contains(SummaryPrompt(resume), "      Experience: " + ExperienceLine(resume) + "\n")
  {
    var head := SummaryHead + "      Name: " + resume.fullName + "\n"
      + "      Target Job: " + resume.jobTitle + "\n";
    var skillsLine := "      Skills: " + SkillsLine(resume) + "\n";
    var expLine := "      Experience: " + ExperienceLine(resume) + "\n";
    var p := SummaryPrompt(resume);
    assert p == head + skillsLine + (expLine + "    ");
    ContainsMiddle(head, skillsLine, expLine + "    ");
    assert p == (head + skillsLine) + expLine + "    ";
    ContainsMiddle(head + skillsLine, expLine, "    ");
  }

  // ---- calls ----------------------------------------------------------

  /** `analyzeATSCompatibility`. A too-short job description fails before
      the provider is called; otherwise exactly one prompt is sent, and the
      call succeeds only with a non-empty answer that parses. Every failure
      is propagated: there is no fallback result. `serialize` stands for
      `JSON.stringify` and `parse` for `JSON.parse` with its unchecked cast
      (None when it throws). */
  function AnalyzeATSCompatibility(
    resume: ResumeData, jd: string,
    serialize: ResumeData -> string,
    provider: string -> Reply,
    parse: string -> Option<ATSAnalysisResult>)
    : (r: Traced<Result<ATSAnalysisResult, AnalysisError>>)
    ensures JobDescriptionTooShort(jd) <==> r.prompts == []
    ensures JobDescriptionTooShort(jd) <==> r.value == Failure(TooShort)
    ensures !JobDescriptionTooShort(jd) ==> r.prompts == [AnalysisPrompt(serialize(resume), jd)]
    ensures r.value.Success? <==>
              && |r.prompts| == 1
              && provider(r.prompts[0]).Text?
              && provider(r.prompts[0]).text != ""
              && parse(provider(r.prompts[0]).text).Some?
    ensures r.value.Success? ==> Some(r.value.value) == parse(provider(r.prompts[0]).text)
    ensures r.value == Failure(NoResponse) <==> |r.prompts| == 1 && provider(r.prompts[0]) == Text("")
    ensures r.value == Failure(ProviderFailed) <==> |r.prompts| == 1 && provider(r.prompts[0]).Fail?
    ensures r.value == Failure(ParseFailed) <==>
              && |r.prompts| == 1
              && provider(r.prompts[0]).Text?
              && provider(r.prompts[0]).text != ""
              && parse(provider(r.prompts[0]).text).None?
  {
    if JobDescriptionTooShort(jd) then Traced(Failure(TooShort), [])
    else
      var prompt := AnalysisPrompt(serialize(resume), jd);
      var outcome :=
        match provider(prompt)
        case Fail => Failure(ProviderFailed)
        case Text(text) =>
          if text == "" then Failure(NoResponse)
          else
            match parse(text)
            case None => Failure(ParseFailed)
            case Some(result) => Success(result);
      Traced(outcome, [prompt])
  }

  /** `enhanceWorkDescription`: never fails. One prompt is sent; a
      non-empty answer is returned verbatim, and an empty answer or a
      thrown error yields the current description unchanged. */
  function EnhanceWorkDescription(
    role: string, company: string, currentDescription: string,
    provider: string -> Reply)
    : (r: Traced<string>)
    ensures r.prompts == [EnhancePrompt(role, company, currentDescription)]
    ensures provider(r.prompts[0]).Text? && provider(r.prompts[0]).text != "" ==>
              r.value == provider(r.prompts[0]).text
    ensures provider(r.prompts[0]) in {Fail, Text("")} ==> r.value == currentDescription
  {
    var prompt := EnhancePrompt(role, company, currentDescription);
    match provider(prompt)
    case Fail => Traced(currentDescription, [prompt])
    case Text(text) => Traced(if text != "" then text else currentDescription, [prompt])
  }

  /** `generateProfessionalSummary`: never fails. One prompt is sent; a
      non-empty answer is returned verbatim, and an empty answer or a
      thrown error yields the empty string. */
  function GenerateProfessionalSummary(resume: ResumeData, provider: string -> Reply)
    : (r: Traced<string>)
    ensures r.prompts == [SummaryPrompt(resume)]
    ensures provider(r.prompts[0]).Text? && provider(r.prompts[0]).text != "" ==>
              r.value == provider(r.prompts[0]).text
    ensures provider(r.prompts[0]) in {Fail, Text("")} ==> r.value == ""
  {
    var prompt := SummaryPrompt(resume);
    match provider(prompt)
    case Fail => Traced("", [prompt])
    case Text(text) => Traced(text, [prompt])
  }

  /** The two fallback policies differ: with a provider that always fails,
      enhancement hands back its input while summary generation hands back
      the empty string, and the analysis reports an error. */
  lemma FallbackPolicies(resume: ResumeData, jd: string, role: string, company: string, description: string,
                         serialize: ResumeData -> string, parse: string -> Option<ATSAnalysisResult>)
    ensures EnhanceWorkDescription(role, company, description, _ => Fail).value == description
    ensures GenerateProfessionalSummary(resume, _ => Fail).value == ""
    ensures AnalyzeATSCompatibility(resume, jd, serialize, _ => Fail, parse).value.Failure?
  {
  }
}
