/** The three resume templates of `components/ResumeTemplates.tsx` with
    layout and styling stripped: each maps a resume to the ordered sequence
    of sections it shows, in document order. A section is shown exactly
    when its backing string is truthy (non-empty, with no trimming) or its
    backing sequence is non-empty. */
module Templates {
  import opened Wrappers
  import opened Types

  /** The contact items of the header. */
  datatype ContactKind = LocationContact | EmailContact | PhoneContact | LinkedinContact

  /** A contact item and the text it displays. */
  datatype Contact = Contact(kind: ContactKind, shown: string)

  /** One work entry as shown; `period` is the rendered date range. */
  datatype Position = Position(role: string, company: string, period: string, description: string)

  /** One education entry as shown. */
  datatype Degree = Degree(school: string, degree: string, graduationDate: string)

  datatype Section =
    | Header(name: string, subtitle: Option<string>, contacts: seq<Contact>)
    | SummarySection(text: string)
    | SkillsSection(names: seq<string>)
    | ExperienceSection(positions: seq<Position>)
    | EducationSection(degrees: seq<Degree>)

  datatype Kind = HeaderKind | SummaryKind | SkillsKind | ExperienceKind | EducationKind

  function KindOf(s: Section): Kind
  {
    match s
    case Header(_, _, _) => HeaderKind
    case SummarySection(_) => SummaryKind
    case SkillsSection(_) => SkillsKind
    case ExperienceSection(_) => ExperienceKind
    case EducationSection(_) => EducationKind
  }

  /** The kinds of the sections of a document, in document order. */
  function Kinds(doc: seq<Section>): (ks: seq<Kind>)
    ensures |ks| == |doc|
    ensures forall i :: 0 <= i < |doc| ==> ks[i] == KindOf(doc[i])
  {
    if |doc| == 0 then [] else [KindOf(doc[0])] + Kinds(doc[1..])
  }

  /** No value occurs twice. */
  predicate NoDuplicates<T(==)>(s: seq<T>)
  {
    forall i, j :: 0 <= i < j < |s| ==> s[i] != s[j]
  }

  /** The data behind a section kind is non-empty (truthy); the header has
      no condition. */
  predicate Backed(d: ResumeData, k: Kind)
  {
    match k
    case HeaderKind => true
    case SummaryKind => d.summary != ""
    case SkillsKind => |d.skills| > 0
    case ExperienceKind => |d.workExperience| > 0
    case EducationKind => |d.education| > 0
  }

  /** The kinds of a layout order whose data is non-empty, in that order:
      the sections a template with that layout shows. */
  function Visible(d: ResumeData, order: seq<Kind>): seq<Kind>
  {
    if |order| == 0 then []
    else (if Backed(d, order[0]) then [order[0]] else []) + Visible(d, order[1..])
  }

  lemma {:induction false} VisibleMembers(d: ResumeData, order: seq<Kind>)
    ensures forall k :: k in Visible(d, order) <==> k in order && Backed(d, k)
  {
    if |order| > 0 {
      VisibleMembers(d, order[1..]);
      assert order == [order[0]] + order[1..];
    }
  }

  lemma {:induction false} VisibleNoDuplicates(d: ResumeData, order: seq<Kind>)
    requires NoDuplicates(order)
    ensures NoDuplicates(Visible(d, order))
  {
    if |order| > 0 {
      var rest := order[1..];
      VisibleNoDuplicates(d, rest);
      VisibleMembers(d, rest);
      if Backed(d, order[0]) {
        assert order[0] !in rest;
        ConsNoDuplicates(order[0], Visible(d, rest));
      }
    }
  }

  lemma ConsNoDuplicates<T>(x: T, s: seq<T>)
    requires x !in s && NoDuplicates(s)
    ensures NoDuplicates([x] + s)
  {
    var r := [x] + s;
    forall i, j | 0 <= i < j < |r|
      ensures r[i] != r[j]
    {
      assert r[j] == s[j - 1];
      if i > 0 {
        assert r[i] == s[i - 1];
      }
    }
  }

  // ---- faithfulness of the shown data --------------------------------------

  /** The resume field behind a contact item. */
  function ContactField(d: ResumeData, k: ContactKind): string
  {
    match k
    case LocationContact => d.location
    case EmailContact => d.email
    case PhoneContact => d.phone
    case LinkedinContact => d.linkedin
  }

  function ContactKinds(cs: seq<Contact>): (ks: seq<ContactKind>)
    ensures |ks| == |cs|
    ensures forall i :: 0 <= i < |cs| ==> ks[i] == cs[i].kind
  {
    if |cs| == 0 then [] else [cs[0].kind] + ContactKinds(cs[1..])
  }

  /** A contact item appears exactly when its field is non-empty, at most
      once; every item other than LinkedIn displays its field's value. */
  predicate ContactsFaithful(d: ResumeData, cs: seq<Contact>)
  {
    && (forall k :: k in ContactKinds(cs) <==> ContactField(d, k) != "")
    && NoDuplicates(ContactKinds(cs))
    && (forall i :: 0 <= i < |cs| && cs[i].kind != LinkedinContact ==> cs[i].shown == ContactField(d, cs[i].kind))
  }

  /** One block per work entry, in sequence order, carrying its role,
      company and description. */
  predicate PositionsFaithful(work: seq<WorkExperience>, ps: seq<Position>)
  {
    && |ps| == |work|
    && forall i :: 0 <= i < |ps| ==>
         ps[i].role == work[i].role && ps[i].company == work[i].company
         && ps[i].description == work[i].description
  }

  /** One block per education entry, in sequence order. */
  predicate DegreesFaithful(education: seq<Education>, ds: seq<Degree>)
  {
    && |ds| == |education|
    && forall i :: 0 <= i < |ds| ==>
         ds[i] == Degree(education[i].school, education[i].degree, education[i].graduationDate)
  }

  /** The skill names, one per skill, in sequence order. */
  predicate NamesFaithful(skills: seq<Skill>, names: seq<string>)
  {
    |names| == |skills| && forall i :: 0 <= i < |names| ==> names[i] == skills[i].name
  }

  /** A section shows the resume's own data. */
  predicate SectionFaithful(d: ResumeData, s: Section)
  {
    match s
    case Header(name, _, contacts) => name == d.fullName && ContactsFaithful(d, contacts)
    case SummarySection(text) => text == d.summary
    case SkillsSection(names) => NamesFaithful(d.skills, names)
    case ExperienceSection(ps) => PositionsFaithful(d.workExperience, ps)
    case EducationSection(ds) => DegreesFaithful(d.education, ds)
  }

  /** What every template guarantees about a rendered resume: the header
      comes first; a section of each kind is shown exactly when its data is
      non-empty, and never twice; and each section shows the resume's data. */
  predicate RendersResume(d: ResumeData, doc: seq<Section>)
  {
    && |doc| > 0 && doc[0].Header?
    && (forall k :: k in Kinds(doc) <==> Backed(d, k))
    && NoDuplicates(Kinds(doc))
    && (forall i :: 0 <= i < |doc| ==> SectionFaithful(d, doc[i]))
  }

  // ---- building blocks ---------------------------------------------------

  /** The positions of a work history, the dates joined by `dash`. */
  function Positions(work: seq<WorkExperience>, dash: string): (ps: seq<Position>)
    ensures PositionsFaithful(work, ps)
    ensures forall i :: 0 <= i < |ps| ==> ps[i].period == work[i].startDate + dash + work[i].endDate
  {
    if |work| == 0 then []
    else
      var w := work[0];
      [Position(w.role, w.company, w.startDate + dash + w.endDate, w.description)] + Positions(work[1..], dash)
  }

  function Degrees(education: seq<Education>): (ds: seq<Degree>)
    ensures DegreesFaithful(education, ds)
  {
    if |education| == 0 then []
    else
      var e := education[0];
      [Degree(e.school, e.degree, e.graduationDate)] + Degrees(education[1..])
  }

  /** `{data.x && <item/>}` for the kinds in `order`: each item is shown
      only when its field is non-empty; LinkedIn displays `linkedinText`. */
  function Contacts(d: ResumeData, order: seq<ContactKind>, linkedinText: string): (cs: seq<Contact>)
    ensures forall i :: 0 <= i < |cs| ==>
              cs[i].shown == if cs[i].kind == LinkedinContact then linkedinText else ContactField(d, cs[i].kind)
  {
    if |order| == 0 then []
    else
      var k := order[0];
      var shown := if k == LinkedinContact then linkedinText else ContactField(d, k);
      (if ContactField(d, k) != "" then [Contact(k, shown)] else []) + Contacts(d, order[1..], linkedinText)
  }

  /** The contact kinds of `order` whose field is non-empty, in the order
      given: the reference for which header items appear and in what
      sequence. */
  function ShownKinds(d: ResumeData, order: seq<ContactKind>): (ks: seq<ContactKind>)
    ensures |ks| <= |order|
  {
    if |order| == 0 then []
    else (if ContactField(d, order[0]) != "" then [order[0]] else []) + ShownKinds(d, order[1..])
  }

  /** The header items follow `order`, skipping exactly the empty fields. */
  lemma {:induction false} ContactsInOrder(d: ResumeData, order: seq<ContactKind>, linkedinText: string)
    ensures ContactKinds(Contacts(d, order, linkedinText)) == ShownKinds(d, order)
  {
    if |order| > 0 {
      ContactsInOrder(d, order[1..], linkedinText);
      var k := order[0];
      var tail := Contacts(d, order[1..], linkedinText);
      var cs := Contacts(d, order, linkedinText);
      if ContactField(d, k) != "" {
        assert cs[1..] == tail;
        assert ContactKinds(cs) == [k] + ContactKinds(tail);
      } else {
        assert cs == tail;
      }
    }
  }

  /** Contact order of the Classic and Modern headers. */
  const SidebarContactOrder: seq<ContactKind> := [LocationContact, EmailContact, PhoneContact, LinkedinContact]

  /** Contact order of the Minimalist header. */
  const MinimalistContactOrder: seq<ContactKind> := [EmailContact, PhoneContact, LinkedinContact, LocationContact]

  /** The kinds kept are exactly the non-empty fields among `order`, each
      once when `order` names each kind once. */
  lemma {:induction false} ShownKindsMembers(d: ResumeData, order: seq<ContactKind>)
    ensures forall k :: k in ShownKinds(d, order) <==> k in order && ContactField(d, k) != ""
    ensures NoDuplicates(order) ==> NoDuplicates(ShownKinds(d, order))
  {
    if |order| > 0 {
      var rest := order[1..];
      var k := order[0];
      ShownKindsMembers(d, rest);
      assert order == [k] + rest;
      if ContactField(d, k) != "" && NoDuplicates(order) {
        assert k !in rest;
        ConsNoDuplicates(k, ShownKinds(d, rest));
      }
    }
  }

  /** The items shown are exactly the non-empty fields among `order`, each
      once when `order` names each kind once. */
  lemma ContactsShown(d: ResumeData, order: seq<ContactKind>, linkedinText: string)
    ensures forall k :: k in ContactKinds(Contacts(d, order, linkedinText)) <==> k in order && ContactField(d, k) != ""
    ensures NoDuplicates(order) ==> NoDuplicates(ContactKinds(Contacts(d, order, linkedinText)))
  {
    ContactsInOrder(d, order, linkedinText);
    ShownKindsMembers(d, order);
  }

  /** The sections among `slots` whose data is non-empty, in slot order. */
  function Present(d: ResumeData, slots: seq<Section>): (r: seq<Section>)
  {
    if |slots| == 0 then []
    else (if Backed(d, KindOf(slots[0])) then [slots[0]] else []) + Present(d, slots[1..])
  }

  /** Keeping the sections with data keeps exactly the visible kinds, and
      only sections taken from the slots. */
  lemma {:induction false} PresentKinds(d: ResumeData, slots: seq<Section>)
    ensures Kinds(Present(d, slots)) == Visible(d, Kinds(slots))
    ensures forall i :: 0 <= i < |Present(d, slots)| ==> Present(d, slots)[i] in slots
  {
    if |slots| > 0 {
      PresentKinds(d, slots[1..]);
      var rest := Present(d, slots[1..]);
      var r := Present(d, slots);
      assert Kinds(slots)[1..] == Kinds(slots[1..]);
      if Backed(d, KindOf(slots[0])) {
        assert r == [slots[0]] + rest;
        assert r[1..] == rest;
        forall i | 0 < i < |r|
          ensures r[i] in slots
        {
          assert r[i] == rest[i - 1];
          assert rest[i - 1] in slots[1..];
        }
      } else {
        assert r == rest;
        forall i | 0 <= i < |r|
          ensures r[i] in slots
        {
          assert r[i] in slots[1..];
        }
      }
    }
  }

  /** A layout: the header, then sections kept only when their data is
      non-empty. When the layout names every kind exactly once and each
      slot shows the resume's data, the document renders the resume and
      shows the visible kinds in layout order. */
  lemma LayoutRenders(d: ResumeData, h: Section, slots: seq<Section>)
    requires h.Header? && SectionFaithful(d, h)
    requires forall i :: 0 <= i < |slots| ==> SectionFaithful(d, slots[i])
    requires forall k :: k in Kinds([h] + slots)
    requires NoDuplicates(Kinds([h] + slots))
    ensures RendersResume(d, [h] + Present(d, slots))
    ensures Kinds([h] + Present(d, slots)) == Visible(d, Kinds([h] + slots))
  {
    var all := [h] + slots;
    var doc := [h] + Present(d, slots);
    PresentKinds(d, slots);
    assert all[1..] == slots;
    assert doc[1..] == Present(d, slots);
    assert Kinds(doc) == [HeaderKind] + Kinds(Present(d, slots));
    assert Kinds(all) == [HeaderKind] + Kinds(slots);
    assert Visible(d, Kinds(all)) == [HeaderKind] + Visible(d, Kinds(slots)) by {
      assert Kinds(all)[1..] == Kinds(slots);
    }
    VisibleMembers(d, Kinds(all));
    VisibleNoDuplicates(d, Kinds(all));
    forall i | 0 <= i < |doc|
      ensures SectionFaithful(d, doc[i])
    {
      if i > 0 {
        assert doc[i] == Present(d, slots)[i - 1];
        var x := doc[i];
        var j :| 0 <= j < |slots| && slots[j] == x;
      }
    }
  }

  // ---- the three templates -----------------------------------------------

  /** The section order of each layout. */
  const ClassicOrder: seq<Kind> := [HeaderKind, SummaryKind, SkillsKind, ExperienceKind, EducationKind]
  const ModernOrder: seq<Kind> := [HeaderKind, EducationKind, SkillsKind, SummaryKind, ExperienceKind]
  const MinimalistOrder: seq<Kind> := [HeaderKind, SummaryKind, ExperienceKind, SkillsKind, EducationKind]

  /** A list naming each of the five kinds names every kind. */
  lemma EveryKind(ks: seq<Kind>)
    requires HeaderKind in ks && SummaryKind in ks && SkillsKind in ks
    requires ExperienceKind in ks && EducationKind in ks
    ensures forall k :: k in ks
  {
    forall k
      ensures k in ks
    {
      match k
      case HeaderKind =>
      case SummaryKind =>
      case SkillsKind =>
      case ExperienceKind =>
      case EducationKind =>
    }
  }

  /** A list naming each of the four contact kinds names every one. */
  lemma EveryContactKind(ks: seq<ContactKind>)
    requires LocationContact in ks && EmailContact in ks && PhoneContact in ks && LinkedinContact in ks
    ensures forall k :: k in ks
  {
    forall k
      ensures k in ks
    {
      match k
      case LocationContact =>
      case EmailContact =>
      case PhoneContact =>
      case LinkedinContact =>
    }
  }

  /** The header of a template, with its contacts in the given order. */
  function MakeHeader(d: ResumeData, subtitle: Option<string>, order: seq<ContactKind>, linkedinText: string)
    : (h: Section)
    requires LocationContact in order && EmailContact in order && PhoneContact in order && LinkedinContact in order
    requires NoDuplicates(order)
    ensures h.Header? && SectionFaithful(d, h) && h.subtitle == subtitle
    ensures forall c :: c in h.contacts && c.kind == LinkedinContact ==> c.shown == linkedinText
    ensures ContactKinds(h.contacts) == ShownKinds(d, order)
  {
    EveryContactKind(order);
    ContactsShown(d, order, linkedinText);
    ContactsInOrder(d, order, linkedinText);
    Header(d.fullName, subtitle, Contacts(d, order, linkedinText))
  }

  /** Each of the three layout orders names every kind exactly once. */
  lemma LayoutOrderWellFormed(order: seq<Kind>)
    requires order in {ClassicOrder, ModernOrder, MinimalistOrder}
    ensures forall k :: k in order
    ensures NoDuplicates(order)
  {
    EveryKind(order);
  }

  lemma FourSlotKinds(h: Section, slots: seq<Section>)
    requires h.Header? && |slots| == 4
    ensures Kinds([h] + slots) == [HeaderKind, KindOf(slots[0]), KindOf(slots[1]), KindOf(slots[2]), KindOf(slots[3])]
  {
  }

  lemma FourSlotsFaithful(d: ResumeData, slots: seq<Section>)
    requires |slots| == 4
    requires SectionFaithful(d, slots[0]) && SectionFaithful(d, slots[1])
    requires SectionFaithful(d, slots[2]) && SectionFaithful(d, slots[3])
    ensures forall i :: 0 <= i < |slots| ==> SectionFaithful(d, slots[i])
  {
    forall i | 0 <= i < |slots|
      ensures SectionFaithful(d, slots[i])
    {
      if i == 0 {} else if i == 1 {} else if i == 2 {} else {}
    }
  }

  /** Discharges the side conditions of LayoutRenders for one layout
      whose slot kinds are `order`. */
  lemma RenderLayout(d: ResumeData, h: Section, slots: seq<Section>, order: seq<Kind>)
    requires h.Header? && SectionFaithful(d, h) && |slots| == 4
    requires SectionFaithful(d, slots[0]) && SectionFaithful(d, slots[1])
    requires SectionFaithful(d, slots[2]) && SectionFaithful(d, slots[3])
    requires [HeaderKind, KindOf(slots[0]), KindOf(slots[1]), KindOf(slots[2]), KindOf(slots[3])] == order
    requires order in {ClassicOrder, ModernOrder, MinimalistOrder}
    ensures RendersResume(d, [h] + Present(d, slots))
    ensures Kinds([h] + Present(d, slots)) == Visible(d, order)
  {
    FourSlotKinds(h, slots);
    LayoutOrderWellFormed(order);
    FourSlotsFaithful(d, slots);
    LayoutRenders(d, h, slots);
  }

  /** `ClassicTemplate`: a centred header without a subtitle (contacts
      location, email, phone, LinkedIn address), then summary, skills,
      experience and education. */
  function ClassicTemplate(d: ResumeData): (doc: seq<Section>)
    ensures RendersResume(d, doc)
    ensures Kinds(doc) == Visible(d, ClassicOrder)
    ensures doc[0].subtitle == None
    ensures forall c :: c in doc[0].contacts && c.kind == LinkedinContact ==> c.shown == d.linkedin
    ensures ContactKinds(doc[0].contacts) == ShownKinds(d, SidebarContactOrder)
  {
    var h := MakeHeader(d, None, SidebarContactOrder, d.linkedin);
    var slots := [
      SummarySection(d.summary),
      SkillsSection(SkillNames(d.skills)),
      ExperienceSection(Positions(d.workExperience, " - ")),
      EducationSection(Degrees(d.education))];
    RenderLayout(d, h, slots, ClassicOrder);
    [h] + Present(d, slots)
  }

  /** `ModernTemplate`: a sidebar with the name, the job title (or
      "Candidate" when it is empty), the contacts (LinkedIn shown as the
      word "LinkedIn"), education and skills; then a main column with the
      profile summary and the experience. */
  function ModernTemplate(d: ResumeData): (doc: seq<Section>)
    ensures RendersResume(d, doc)
    ensures Kinds(doc) == Visible(d, ModernOrder)
    ensures doc[0].subtitle == Some(if d.jobTitle != "" then d.jobTitle else "Candidate")
    ensures forall c :: c in doc[0].contacts && c.kind == LinkedinContact ==> c.shown == "LinkedIn"
    ensures ContactKinds(doc[0].contacts) == ShownKinds(d, SidebarContactOrder)
  {
    var h := MakeHeader(d, Some(if d.jobTitle != "" then d.jobTitle else "Candidate"),
      SidebarContactOrder, "LinkedIn");
    var slots := [
      EducationSection(Degrees(d.education)),
      SkillsSection(SkillNames(d.skills)),
      SummarySection(d.summary),
      ExperienceSection(Positions(d.workExperience, " - "))];
    RenderLayout(d, h, slots, ModernOrder);
    [h] + Present(d, slots)
  }

  /** `MinimalistTemplate`: a header with the job title shown as is (even
      when empty) and contacts email, phone, LinkedIn (as "LinkedIn
      Profile"), location; then summary and experience, then skills and
      education. */
  function MinimalistTemplate(d: ResumeData): (doc: seq<Section>)
    ensures RendersResume(d, doc)
    ensures Kinds(doc) == Visible(d, MinimalistOrder)
    ensures doc[0].subtitle == Some(d.jobTitle)
    ensures forall c :: c in doc[0].contacts && c.kind == LinkedinContact ==> c.shown == "LinkedIn Profile"
    ensures ContactKinds(doc[0].contacts) == ShownKinds(d, MinimalistContactOrder)
  {
    var h := MakeHeader(d, Some(d.jobTitle),
      MinimalistContactOrder, "LinkedIn Profile");
    var slots := [
      SummarySection(d.summary),
      ExperienceSection(Positions(d.workExperience, " \U{2014} ")),
      SkillsSection(SkillNames(d.skills)),
      EducationSection(Degrees(d.education))];
    RenderLayout(d, h, slots, MinimalistOrder);
    [h] + Present(d, slots)
  }

  /** `ResumeTemplate`: dispatch on the template tag; "modern" and
      "minimalist" select their templates and "classic" or any other tag
      selects Classic. Whatever the tag, the result renders the resume. */
  function ResumeTemplate(d: ResumeData, tag: string): (doc: seq<Section>)
    ensures RendersResume(d, doc)
    ensures tag == Modern.Tag() ==> doc == ModernTemplate(d)
    ensures tag == Minimalist.Tag() ==> doc == MinimalistTemplate(d)
    ensures tag != Modern.Tag() && tag != Minimalist.Tag() ==> doc == ClassicTemplate(d)
  {
    if tag == "modern" then ModernTemplate(d)
    else if tag == "minimalist" then MinimalistTemplate(d)
    else ClassicTemplate(d)
  }

  /** Each member of the enumeration selects its own template. */
  lemma DispatchByType(d: ResumeData, t: TemplateType)
    ensures ResumeTemplate(d, t.Tag()) ==
              match t
              case Classic => ClassicTemplate(d)
              case Modern => ModernTemplate(d)
              case Minimalist => MinimalistTemplate(d)
  {
  }

  /** Whatever the template, the summary section is shown exactly when the
      summary is a non-empty string (so a whitespace-only summary is shown),
      and the skills section exactly when there is at least one skill. */
  lemma EmptySectionsOmitted(d: ResumeData, tag: string)
    ensures d.summary == "" ==> SummaryKind !in Kinds(ResumeTemplate(d, tag))
    ensures |d.skills| == 0 ==> SkillsKind !in Kinds(ResumeTemplate(d, tag))
    ensures d.summary != "" ==> SummaryKind in Kinds(ResumeTemplate(d, tag))
    ensures |d.skills| > 0 ==> SkillsKind in Kinds(ResumeTemplate(d, tag))
  {
  }

  /** Whatever the template, a resume with one work entry shows exactly one
      experience block, carrying that entry's role and company. */
  lemma OneWorkEntryOneBlock(d: ResumeData, tag: string)
    requires |d.workExperience| == 1
    ensures exists i :: 0 <= i < |ResumeTemplate(d, tag)| && ResumeTemplate(d, tag)[i].ExperienceSection?
    ensures forall i :: 0 <= i < |ResumeTemplate(d, tag)| && ResumeTemplate(d, tag)[i].ExperienceSection? ==>
              var ps := ResumeTemplate(d, tag)[i].positions;
              |ps| == 1 && ps[0].role == d.workExperience[0].role && ps[0].company == d.workExperience[0].company
  {
    SingleExperienceBlock(d, ResumeTemplate(d, tag));
  }

  lemma SingleExperienceBlock(d: ResumeData, doc: seq<Section>)
    requires |d.workExperience| == 1 && RendersResume(d, doc)
    ensures exists i :: 0 <= i < |doc| && doc[i].ExperienceSection?
    ensures forall i :: 0 <= i < |doc| && doc[i].ExperienceSection? ==>
              var ps := doc[i].positions;
              |ps| == 1 && ps[0].role == d.workExperience[0].role && ps[0].company == d.workExperience[0].company
  {
    assert ExperienceKind in Kinds(doc);
    var i :| 0 <= i < |doc| && Kinds(doc)[i] == ExperienceKind;
    assert doc[i].ExperienceSection?;
    forall j | 0 <= j < |doc| && doc[j].ExperienceSection?
      ensures |doc[j].positions| == 1
      ensures doc[j].positions[0].role == d.workExperience[0].role
      ensures doc[j].positions[0].company == d.workExperience[0].company
    {
      assert SectionFaithful(d, doc[j]);
    }
  }
}
