/** The portfolio aggregate and its records (src/types/portfolio.ts). A
    TypeScript `field?: T` is an `Option<T>`; string-literal unions are
    datatypes; `number` is an unbounded `int`. */
module Types {
  import opened Wrappers

  datatype ProjectCategory = Web | Mobile | Desktop | Ai | Other

  datatype ProjectStatus = Completed | InProgress | Planned

  datatype SkillCategory = Frontend | Backend | Database | Tools | Languages | Frameworks

  /** The `1 | 2 | 3 | 4 | 5` rating of a skill. */
  type Proficiency = n: int | 1 <= n <= 5 witness 1

  datatype EmploymentType = FullTime | PartTime | Contract | Internship | Freelance

  datatype Project = Project(
    id: string,
    title: string,
    description: string,
    longDescription: string,
    technologies: seq<string>,
    image: string,
    images: seq<string>,
    githubUrl: Option<string>,
    liveUrl: Option<string>,
    category: ProjectCategory,
    featured: bool,
    createdDate: string,
    completedDate: Option<string>,
    status: ProjectStatus,
    challenges: seq<string>,
    learnings: seq<string>)

  datatype Skill = Skill(
    id: string,
    name: string,
    category: SkillCategory,
    proficiency: Proficiency,
    icon: Option<string>,
    yearsOfExperience: int)

  /** `endDate` is absent for the current role; `kind` is the source's `type`. */
  datatype Experience = Experience(
    id: string,
    company: string,
    position: string,
    startDate: string,
    endDate: Option<string>,
    description: string,
    achievements: seq<string>,
    technologies: seq<string>,
    kind: EmploymentType)

  datatype Education = Education(
    id: string,
    institution: string,
    degree: string,
    field: string,
    startDate: string,
    endDate: Option<string>,
    gpa: Option<string>,
    achievements: seq<string>,
    coursework: seq<string>)

  /** Only `email` and `location` are required. */
  datatype Contact = Contact(
    email: string,
    phone: Option<string>,
    location: string,
    linkedin: Option<string>,
    github: Option<string>,
    website: Option<string>,
    twitter: Option<string>,
    instagram: Option<string>)

  datatype PersonalInfo = PersonalInfo(
    name: string,
    title: string,
    bio: string,
    avatar: string,
    resume: string,
    tagline: string,
    yearsOfExperience: int)

  /** The aggregate: two single records and four ordered collections. */
  datatype Portfolio = Portfolio(
    personalInfo: PersonalInfo,
    projects: seq<Project>,
    skills: seq<Skill>,
    experience: seq<Experience>,
    education: seq<Education>,
    contact: Contact)

  /** The string literal a category is written as. */
  function CategoryName(c: ProjectCategory): string
  {
    match c
    case Web => "web"
    case Mobile => "mobile"
    case Desktop => "desktop"
    case Ai => "ai"
    case Other => "other"
  }

  /** The category a string literal names, if any. */
  function ParseCategory(s: string): (r: Option<ProjectCategory>)
    ensures r.Some? <==> exists c :: CategoryName(c) == s
    ensures r.Some? ==> CategoryName(r.value) == s
  {
    if s == CategoryName(Web) then Some(Web)
    else if s == CategoryName(Mobile) then Some(Mobile)
    else if s == CategoryName(Desktop) then Some(Desktop)
    else if s == CategoryName(Ai) then Some(Ai)
    else if s == CategoryName(Other) then Some(Other)
    else
      assert forall c :: CategoryName(c) != s;
      None
  }

  function StatusName(s: ProjectStatus): string
  {
    match s
    case Completed => "completed"
    case InProgress => "in-progress"
    case Planned => "planned"
  }

  function ParseStatus(s: string): (r: Option<ProjectStatus>)
    ensures r.Some? <==> exists t :: StatusName(t) == s
    ensures r.Some? ==> StatusName(r.value) == s
  {
    if s == StatusName(Completed) then Some(Completed)
    else if s == StatusName(InProgress) then Some(InProgress)
    else if s == StatusName(Planned) then Some(Planned)
    else
      assert forall t :: StatusName(t) != s;
      None
  }

  /** Every category is exactly one of the five literals, and reads back as itself. */
  lemma {:induction false} CategoryNamesRoundTrip(c: ProjectCategory)
    ensures ParseCategory(CategoryName(c)) == Some(c)
    ensures forall d :: CategoryName(d) == CategoryName(c) ==> d == c
  {
  }

  /** Every status is exactly one of the three literals, and reads back as itself. */
  lemma {:induction false} StatusNamesRoundTrip(s: ProjectStatus)
    ensures ParseStatus(StatusName(s)) == Some(s)
    ensures forall t :: StatusName(t) == StatusName(s) ==> t == s
  {
  }
}
