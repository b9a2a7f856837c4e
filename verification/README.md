# SmartResume core, modelled in Dafny

SmartResume is a browser resume builder. The user edits a structured resume
record in a form, previews it under one of three templates, and can ask a
generative-text provider to rate the resume against a job description, to
rewrite a work description, or to write a summary. This project models the
logic inside that UI, once React is stripped away:

- **Record editing** (`Editor` module, `editor.dfy`). Copy-on-write updates
  of the immutable resume record: the single-field replace, and
  append / remove-by-id / update-by-id over the work, education and skill
  sequences. Ids come from the wall clock and may repeat, so removal and
  update act on every entry with a matching id. The module also covers the
  one-open-section accordion, the guard that decides whether an "enhance"
  request is sent, and the two AI-assisted handlers. The generic sequence
  operations are in `Entries` (`entries.dfy`).
- **AI gateway** (`Gateway` module, `gateway.dfy`). The provider is a
  parameter that maps a prompt to `Fail` or `Text(s)`. Each call returns
  the prompts it sent, so a call that never reached the provider is visible
  in the model. The module has the analysis call (length gate and error
  propagation), the two non-throwing fallback policies, and the exact prompt
  texts with the skill-name and "role at company" lists.
- **Templates** (`Templates` module, `templates.dfy`). Each template maps
  a resume to the ordered sequence of sections it shows, plus a dispatch on
  the template tag. One predicate, `RendersResume`, states what all three
  templates agree on.
- **Analysis panel** (`AtsPanel` module, `atspanel.dfy`). The state
  (job description, analysis, loading, error) with its start / success /
  failure transitions, the enable rule of the button, and the three score
  colour bands.

`types.dfy` holds the records of `types.ts`. `jsstring.dfy` holds the
JavaScript built-ins the core relies on: `join`, `trim` and `length` in
UTF-16 code units. It also defines `Contains`, a substring predicate in the
manner of `includes`; no core file calls `includes`, and only the prompt
lemmas (`Gateway.*PromptEmbeds`) use it. `wrappers.dfy` holds `Option` and
`Result`.

Three behaviours of the code that are easy to get wrong:

- Template sections are hidden by a truthiness test, not by "non-empty after
  trimming". A whitespace-only summary is therefore shown
  (`Templates.EmptySectionsOmitted`).
- The analysis result is `JSON.parse` plus an unchecked cast. Nothing
  rejects a payload with a missing field; only the provider-side schema
  asks for all five fields. The model's `parse` parameter stands for that
  step and adds no validation beyond what its type can express (see
  "## Left out").
- The accordion does not start collapsed. The personal section starts open.

## Model

| member | source | states |
|---|---|---|
| Entries.RemoveById | components/Editor.tsx:35-37 | the filter drops exactly as many entries as carry the id, and no survivor carries it |
| Entries.RemoveByIdContents | components/Editor.tsx:35-37 | every entry with another id survives with its multiplicity; entries with the id are gone |
| Entries.RemoveByIdAppend | components/Editor.tsx:35-37 | filtering distributes over concatenation, so survivors keep their relative order |
| Entries.RemoveAbsentId | components/Editor.tsx:35-37 | removing an id no entry carries leaves the sequence unchanged |
| Entries.RemoveByIdIdempotent | components/Editor.tsx:35-37 | removing the same id twice equals removing it once |
| Entries.UpdateById | components/Editor.tsx:39-44 | the map keeps length; entries with the id are replaced by their update, all others are untouched |
| Entries.FindById | components/Editor.tsx:47 | `find` yields the first entry with the id, or none exactly when no entry has it |
| JsString.Join | services/gemini.ts:98-99 | `join` of no items is empty, of one item is that item, and starts with the first item |
| JsString.JoinLength | services/gemini.ts:98-99 | a joined string is the items' total length plus one separator per neighbouring pair |
| JsString.JoinSnoc | services/gemini.ts:98-99 | appending an item appends the separator and the item to the joined string |
| JsString.TrimStart | components/ATSAnalysis.tsx:18 | the result is a suffix that starts with a non-blank character; everything dropped is whitespace |
| JsString.TrimEnd | components/ATSAnalysis.tsx:18 | the result is a prefix that ends with a non-blank character; everything dropped is whitespace |
| JsString.TrimEmptyIff | components/ATSAnalysis.tsx:18 | a string trims to empty exactly when all its characters are whitespace |
| JsString.Utf16Length | services/gemini.ts:10 | `length` counts UTF-16 code units: between one and two per character |
| JsString.Utf16LengthChar | services/gemini.ts:10 | a character counts two units exactly when it lies above U+FFFF, otherwise one |
| JsString.Utf16LengthAppend | services/gemini.ts:10 | the unit count of a concatenation is the sum of the parts' counts, which with the per-character rule fixes the count that the 50-unit gate compares |
| JsString.Utf16LengthBmp | services/gemini.ts:10 | a string with no character above U+FFFF has as many code units as characters |
| Gateway.Message | services/gemini.ts:10-54 | only the too-short and no-response failures carry messages of the gateway's own, "Job description is too short for analysis." and "No response from AI" |
| Gateway.AnalysisPromptEmbeds | services/gemini.ts:14-25 | the analysis prompt contains the serialised resume and the job description verbatim |
| Gateway.EnhancePromptEmbeds | services/gemini.ts:69-77 | the rewrite prompt contains role, company and the quoted current description, each on its labelled line |
| Types.SkillNames | services/gemini.ts:98 | one name per skill, in skill order; the summary prompt and every template's skills section list these |
| Gateway.ExperienceItems | services/gemini.ts:99 | one "role at company" item per work entry, in order |
| Gateway.SummaryPromptEmbeds | services/gemini.ts:92-100 | the summary prompt contains the Skills line and the Experience line |
| Gateway.AnalyzeATSCompatibility | services/gemini.ts:6-62 | a too-short description fails with no provider call; otherwise one call; success only on non-empty parsable text, returned as parsed; empty text fails as NoResponse, a thrown provider error as ProviderFailed and unparsable non-empty text as ParseFailed, each iff |
| Gateway.EnhanceWorkDescription | services/gemini.ts:64-89 | one call; non-empty text returned verbatim; empty text or a thrown error gives back the current description |
| Gateway.GenerateProfessionalSummary | services/gemini.ts:91-112 | one call with the summary prompt; non-empty text returned verbatim; empty text or a thrown error gives "" |
| Gateway.FallbackPolicies | services/gemini.ts:84-111 | with a failing provider, enhancement returns its input, summary returns "", and analysis fails |
| Editor.InitialSection | components/Editor.tsx:12 | initially exactly the personal section is open |
| Editor.ToggleSection | components/Editor.tsx:15-17 | after a toggle, a section is open iff it is the toggled one and that was not open before |
| Editor.ToggleTwice | components/Editor.tsx:15-17 | a double toggle restores the state if that section or none was open, else closes all |
| Editor.UpdateField | components/Editor.tsx:19-21 | the named field holds the new value and every other field is unchanged |
| Editor.UpdateFieldUnchanged | components/Editor.tsx:19-21 | writing a field's own value back yields the same record |
| Editor.SetWorkField | components/Editor.tsx:41 | the spread update sets one work field and keeps the others |
| Editor.AddWorkExperience | components/Editor.tsx:23-33 | length grows by one, the old entries are a prefix, and the new last entry has the fresh id and empty fields; nothing else changes |
| Editor.RemoveWorkExperience | components/Editor.tsx:35-37 | exactly the entries with another id remain, with multiplicities and order; nothing else changes |
| Editor.UpdateWorkExperience | components/Editor.tsx:39-44 | length kept; every entry with the id gets the value in that field and keeps its other fields; other entries and fields unchanged |
| Editor.UpdateWorkExperienceIdempotent | components/Editor.tsx:39-44 | applying the same work update twice equals applying it once, even for the id field |
| Editor.RemoveAfterAddWorkExperience | components/Editor.tsx:23-37 | removing a freshly added entry's id equals removing that id from the original record |
| Editor.SetEducationField | components/Editor.tsx:83 | the spread update sets one education field and keeps the others |
| Editor.AddEducation | components/Editor.tsx:77-80 | appends a blank entry with the fresh id after the old entries; nothing else changes |
| Editor.RemoveEducation | components/Editor.tsx:87-89 | exactly the entries with another id remain, in order; nothing else changes |
| Editor.UpdateEducation | components/Editor.tsx:82-85 | every entry with the id gets the value in that field and keeps its other fields; others unchanged |
| Editor.RemoveAfterAddEducation | components/Editor.tsx:77-89 | removing a freshly added education id equals removing it from the original record |
| Editor.AddSkill | components/Editor.tsx:63-66 | appends a skill with the fresh id, an empty name and level Intermediate; nothing else changes |
| Editor.RemoveSkill | components/Editor.tsx:68-70 | exactly the skills with another id remain, in order; nothing else changes |
| Editor.UpdateSkill | components/Editor.tsx:72-75 | each skill with the id gets the new name and keeps its id and level; other skills unchanged |
| Editor.RemoveAfterAddSkill | components/Editor.tsx:63-70 | removing a freshly added skill's id equals removing that id from the original record |
| Editor.RemoveAfterUpdateSkill | components/Editor.tsx:68-75 | renaming skills and then removing that id equals removing it directly |
| Editor.EnhanceTarget | components/Editor.tsx:46-48 | no request iff no entry has the id or the first such entry has an empty description; otherwise the target is that FIRST entry with the id, as `find` returns |
| Editor.HandleEnhanceDescription | components/Editor.tsx:46-54 | without a target, nothing is sent or changed; otherwise one rewrite prompt is sent and its outcome becomes the description of every entry with that id |
| Editor.EnhanceFailureKeepsRecord | components/Editor.tsx:46-52 | with a unique id, a failed or empty rewrite leaves the record unchanged |
| Editor.EnhanceFailureWithSharedId | components/Editor.tsx:46-52 | with two entries sharing an id, a failed rewrite still copies the first description into the second |
| Editor.HandleGenerateSummary | components/Editor.tsx:56-61 | sends the summary prompt once and stores the generated text in `summary` only |
| Editor.SummaryFailureClearsSummary | components/Editor.tsx:56-61 | a failed or empty generation replaces the user's summary with "" |
| Editor.SkillsLineAfterAddSkill | services/gemini.ts:98 | after adding a skill the Skills line gains a trailing ", " (stays empty if there were no skills) |
| Editor.ExperienceLineAfterAddWork | services/gemini.ts:99 | after adding a work entry the Experience line gains the item " at " |
| Templates.Positions | components/ResumeTemplates.tsx:46-55 | one block per work entry, in order, with its role, company, description and date range |
| Templates.Degrees | components/ResumeTemplates.tsx:64-72 | one block per education entry, in order, with school, degree and date |
| Templates.Contacts | components/ResumeTemplates.tsx:15-18 | each shown contact displays its field's value, or the template's LinkedIn text |
| Templates.ContactsInOrder | components/ResumeTemplates.tsx:15-18 | the header items follow the given contact order, skipping exactly the kinds whose field is empty |
| Templates.ShownKindsMembers | components/ResumeTemplates.tsx:15-18 | the kinds kept by the contact filter are exactly the non-empty fields of the order, each once when the order has no repeats |
| Templates.ContactsShown | components/ResumeTemplates.tsx:15-18 | a contact item is shown iff its field is non-empty, each at most once |
| Templates.MakeHeader | components/ResumeTemplates.tsx:12-19 | the header shows the full name and faithful contacts, in the given contact order |
| Templates.ClassicTemplate | components/ResumeTemplates.tsx:10-77 | renders the resume; sections in the order header, summary, skills, experience, education, each only when backed; no subtitle; contacts in the order location, email, phone, LinkedIn |
| Templates.ModernTemplate | components/ResumeTemplates.tsx:79-153 | renders the resume; the order is header, education, skills, summary, experience; the subtitle is the job title or "Candidate"; contacts in the order location, email, phone, LinkedIn |
| Templates.MinimalistTemplate | components/ResumeTemplates.tsx:155-224 | renders the resume; the order is header, summary, experience, skills, education; the job title is shown as it is; contacts in the order email, phone, LinkedIn, location |
| Templates.ResumeTemplate | components/ResumeTemplates.tsx:226-236 | "modern" and "minimalist" pick their templates, any other tag picks Classic; every result renders the resume |
| Templates.DispatchByType | components/ResumeTemplates.tsx:226-236 | each enumeration member selects its own template |
| Templates.EmptySectionsOmitted | components/ResumeTemplates.tsx:22-29 | every template shows the summary section iff the summary is a non-empty string (so a whitespace-only summary is shown) and the skills section iff there is at least one skill |
| Templates.OneWorkEntryOneBlock | components/ResumeTemplates.tsx:42-55 | with one work entry every template shows exactly one experience block with its role and company |
| AtsPanel.InitialPanel | components/ATSAnalysis.tsx:12-15 | the panel starts with no text, no analysis, not loading and no error |
| AtsPanel.EditJobDescription | components/ATSAnalysis.tsx:49 | typing replaces the job description and nothing else |
| AtsPanel.AnalyzeEnabledIff | components/ATSAnalysis.tsx:53 | the button is enabled iff not loading and the description has a non-whitespace character |
| AtsPanel.StartAnalysis | components/ATSAnalysis.tsx:17-20 | a blank description changes nothing; otherwise loading is set, the error cleared, the analysis kept |
| AtsPanel.SettleAnalysis | components/ATSAnalysis.tsx:21-28 | success replaces the analysis; failure sets the message and keeps the old analysis; loading is off either way |
| AtsPanel.HandleAnalyze | components/ATSAnalysis.tsx:17-29 | a blank description is a no-op; otherwise the gateway outcome settles the panel as above, with the gateway's prompts |
| AtsPanel.ShortDescriptionShowsError | components/ATSAnalysis.tsx:18-25 | a non-blank description under 50 code units ends in the error state with no provider call |
| AtsPanel.EnabledAfterAnalyze | components/ATSAnalysis.tsx:26-28 | if the button was enabled, it is enabled again after the analysis completes |
| AtsPanel.ScoreColour | components/ATSAnalysis.tsx:31 | green iff score > 75, yellow iff 50 < score <= 75, red iff score <= 50 |
| AtsPanel.ScoreColourMonotone | components/ATSAnalysis.tsx:31 | a higher score never gets a worse colour band |
| AtsPanel.ScoreData | components/ATSAnalysis.tsx:31 | empty iff there is no analysis; otherwise one "Score" entry with the score and its band colour |

## Left out

- Browser I/O in `App.tsx` is not modelled: printing, the JSON download with its anchor element, and `encodeURIComponent`. The tab and template selection state are left out too. The seed resume record is not needed by any property.
- The generative-text client, the model name, the response schema, `JSON.stringify` and `JSON.parse` are foreign calls. They appear only as the `provider`, `serialize` and `parse` parameters, and `console.error` logging is dropped.
- An absent response text and an empty one are both `Text("")`. The source treats them the same way, by truthiness.
- `Date.now()` id generation is a `freshId` parameter, and ids are not assumed unique.
- Overlapping asynchronous calls are not modelled, and neither is the `loadingAI` "in flight" marker that disables a button per field. Each handler runs to completion on the record it was given, so the stale-closure and out-of-order-completion races of concurrent enhance or analyze calls are out of scope.
- Layout is not modelled: JSX structure, CSS classes, icons, the radial chart, and the order in which an education block lays out its three texts. Separators that are pure layout are omitted, such as Minimalist's " | " between company and dates and the bullets between skill names.
- Scores are `real`. IEEE behaviour such as NaN, which the source would colour red, is not modelled.
- `handleAnalyze` does not check `loading` itself; only the disabled button does. The model keeps that split: `HandleAnalyze` does not test `loading`.
- `parse` returns either `None` or a complete five-field `ATSAnalysisResult`. `JSON.parse(text) as ATSAnalysisResult` can also yield `null`, a number or a record with missing fields, and the panel stores whatever it yields. A stored `null` clears the analysis without showing an error, and a missing list crashes rendering at its `.map`. The model cannot express these payloads: `parse` must map each of them to `None` or to a full record.
- Strings are sequences of Unicode scalar values, while a JavaScript string is a sequence of UTF-16 code units. Text holding an unpaired surrogate therefore cannot be represented, although `.length` would count such a surrogate as one unit at the 50-unit gate. `JsString.Utf16Length` is exact for every string the model can represent.
- `updateField` accepts any key with an untyped value. The model's `FieldUpdate` pairs each key with a value of the key's type, so ill-typed calls, which the UI never makes, cannot be expressed.
