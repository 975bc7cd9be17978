/** The resume records the analyzer reads, already fetched from the database
    (each related-object manager is the sequence of its rows in query order),
    and the flattening of a resume into the one text the analyzer scores. */
module ResumeData {
  import opened Options
  import opened Text

  datatype Experience = Experience(
    company: string,
    position: string,
    description: string,
    startDay: int,             // dates as day numbers
    endDay: Option<int>)       // no end date: the position is current

  datatype Education = Education(institution: string, fieldOfStudy: string, degree: string)

  datatype Skill = Skill(name: string)

  datatype Certification = Certification(name: string, issuingOrganization: string)

  datatype Project = Project(title: string, description: string, technologies: string)

  datatype Resume = Resume(
    fullName: string,
    email: string,
    phone: string,
    summary: string,
    experiences: seq<Experience>,
    educations: seq<Education>,
    skills: seq<Skill>,
    certifications: seq<Certification>,
    projects: seq<Project>)

  /** `get_degree_display()`: the label of a degree code, or the code itself
      when it is not one of the choices. */
  function DegreeDisplay(code: string): string {
    if code == "high_school" then "High School Diploma"
    else if code == "associate" then "Associate Degree"
    else if code == "bachelor" then "Bachelor's Degree"
    else if code == "master" then "Master's Degree"
    else if code == "phd" then "Ph.D."
    else if code == "certificate" then "Certificate"
    else if code == "bootcamp" then "Bootcamp"
    else code
  }

  function ExperienceFields(e: Experience): seq<string> { [e.company, e.position, e.description] }
  function EducationFields(e: Education): seq<string> { [e.institution, e.fieldOfStudy, DegreeDisplay(e.degree)] }
  function SkillFields(s: Skill): seq<string> { [s.name] }
  function CertificationFields(c: Certification): seq<string> { [c.name, c.issuingOrganization] }
  function ProjectFields(p: Project): seq<string> { [p.title, p.description, p.technologies] }

  /** The fields of every entry, entry after entry. */
  function Flatten<T>(xs: seq<T>, fields: T -> seq<string>): seq<string> {
    if xs == [] then [] else Flatten(xs[..|xs| - 1], fields) + fields(xs[|xs| - 1])
  }

  function HeadFields(r: Resume): seq<string> { [r.fullName, r.email, r.summary] }

  /** The text parts of a resume in the order the analyzer collects them: name,
      e-mail and summary, then every experience, education, skill, certification
      and project. */
  function ResumeParts(r: Resume): seq<string> {
    HeadFields(r)
    + Flatten(r.experiences, ExperienceFields)
    + Flatten(r.educations, EducationFields)
    + Flatten(r.skills, SkillFields)
    + Flatten(r.certifications, CertificationFields)
    + Flatten(r.projects, ProjectFields)
  }

  /** One `for` loop of `_extract_resume_text`: the fields of every item, in
      order, are appended to the parts collected so far. */
  method ExtendWithFields<T>(parts: seq<string>, xs: seq<T>, fields: T -> seq<string>)
    returns (extended: seq<string>)
    ensures extended == parts + Flatten(xs, fields)
  {
    extended := parts;
    var i := 0;
    while i < |xs|
      invariant 0 <= i <= |xs|
      invariant extended == parts + Flatten(xs[..i], fields)
    {
      assert xs[..i + 1][..i] == xs[..i];
      extended := extended + fields(xs[i]);
      i := i + 1;
    }
    assert xs[..i] == xs;
  }

  /** `_extract_resume_text`: the parts are collected section by section and the
      non-empty ones joined with single spaces. */
  method ExtractResumeText(r: Resume) returns (text: string)
    ensures text == Join(NonEmpty(ResumeParts(r)), " ")
  {
    var parts := [r.fullName, r.email, r.summary];
    parts := ExtendWithFields(parts, r.experiences, ExperienceFields);
    parts := ExtendWithFields(parts, r.educations, EducationFields);
    parts := ExtendWithFields(parts, r.skills, SkillFields);
    parts := ExtendWithFields(parts, r.certifications, CertificationFields);
    parts := ExtendWithFields(parts, r.projects, ProjectFields);
    text := Join(NonEmpty(parts), " ");
  }

  /** The lower-cased text the analyzer scores contains every non-empty field of
      the resume, lower-cased. */
  lemma ResumeTextContainsField(r: Resume, k: nat)
    requires k < |ResumeParts(r)| && ResumeParts(r)[k] != ""
    ensures Contains(Lower(Join(NonEmpty(ResumeParts(r)), " ")), Lower(ResumeParts(r)[k]))
  {
    var parts := ResumeParts(r);
    var kept := NonEmpty(parts);
    assert parts[k] in kept;
    var m :| 0 <= m < |kept| && kept[m] == parts[k];
    JoinContainsEach(kept, " ", m);
    ContainsLower(Join(kept, " "), parts[k]);
  }

  /** The text is empty exactly when every field of the resume is empty. */
  lemma ResumeTextEmpty(r: Resume)
    ensures Join(NonEmpty(ResumeParts(r)), " ") == "" <==> forall p :: p in ResumeParts(r) ==> p == ""
  {
    var kept := NonEmpty(ResumeParts(r));
    JoinOfNonEmpty(kept, " ");
    if kept != [] {
      assert kept[0] in kept;
    }
  }
}
