/** The browser's key-value storage as the portfolio code sees it: a map from
    key to stored value. JSON serialisation is abstract: a value written with
    `JSON.stringify` is stored as the typed document it denotes, and anything
    else is `Text`. */
module LocalStorage {
  import opened Wrappers
  import opened Types

  /** A parsed `personalInfo` object: any subset of the record's fields. */
  datatype PersonalInfoPatch = PersonalInfoPatch(
    name: Option<string>,
    title: Option<string>,
    bio: Option<string>,
    avatar: Option<string>,
    resume: Option<string>,
    tagline: Option<string>,
    yearsOfExperience: Option<int>)

  /** A parsed `contact` object: any subset of the record's fields. */
  datatype ContactPatch = ContactPatch(
    email: Option<string>,
    phone: Option<string>,
    location: Option<string>,
    linkedin: Option<string>,
    github: Option<string>,
    website: Option<string>,
    twitter: Option<string>,
    instagram: Option<string>)

  /** A stored string. `Text` is any string that is not the JSON of a
      portfolio section: a flag such as `"true"`, the empty string, or text
      that does not parse as the section stored under its key. */
  datatype Stored =
    | Text(text: string)
    | ProjectsDoc(projects: seq<Project>)
    | PersonalInfoDoc(personalInfo: PersonalInfoPatch)
    | ContactDoc(contact: ContactPatch)
    | SkillsDoc(skills: seq<Skill>)
    | ExperienceDoc(experience: seq<Experience>)
    | EducationDoc(education: seq<Education>)

  type Storage = map<string, Stored>

  /** `if (localStorage.getItem(k))`: a missing key (`null`) and the empty
      string are both falsy. */
  predicate Present(st: Storage, k: string)
  {
    k in st && st[k] != Text("")
  }

  /** `localStorage.setItem(k, v)`, which throws (and writes nothing) for the
      keys in `failing`: a full quota or disabled storage. */
  function SetItem(st: Storage, k: string, v: Stored, failing: set<string>): (r: Option<Storage>)
    ensures r.None? <==> k in failing
    ensures r.Some? ==> k in r.value && r.value[k] == v
    ensures r.Some? ==> forall j :: j != k ==> (j in r.value <==> j in st)
    ensures r.Some? ==> forall j :: j != k && j in st ==> r.value[j] == st[j]
  {
    if k in failing then None else Some(st[k := v])
  }

  /** `localStorage.removeItem(k)`. */
  function RemoveItem(st: Storage, k: string): (r: Storage)
    ensures k !in r
    ensures forall j :: j != k ==> (j in r <==> j in st)
    ensures forall j :: j != k && j in st ==> r[j] == st[j]
  {
    st - {k}
  }
}
