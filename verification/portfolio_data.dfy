/** The local-first data store (src/hooks/usePortfolioData.ts): the baseline
    aggregate overlaid with the section overrides kept in browser storage.
    The baseline (src/data/portfolio.ts) is the parameter `baseline`; the
    storage a `Storage` value passed in and returned; a write that throws is
    a key in `failing`. */
module PortfolioData {
  import opened Wrappers
  import opened Types
  import opened LocalStorage

  /** The six overridable sections of the aggregate. */
  datatype Section =
    | ProjectsSection
    | PersonalInfoSection
    | ContactSection
    | SkillsSection
    | ExperienceSection
    | EducationSection

  const ProjectsKey := "portfolioProjects"
  const PersonalInfoKey := "portfolioPersonalInfo"
  const ContactKey := "portfolioContact"
  const SkillsKey := "portfolioSkills"
  const ExperienceKey := "portfolioExperience"
  const EducationKey := "portfolioEducation"

  /** The storage key of a section. */
  function Key(s: Section): string
  {
    match s
    case ProjectsSection => ProjectsKey
    case PersonalInfoSection => PersonalInfoKey
    case ContactSection => ContactKey
    case SkillsSection => SkillsKey
    case ExperienceSection => ExperienceKey
    case EducationSection => EducationKey
  }

  /** The six section keys. */
  const SectionKeys: set<string> :=
    {ProjectsKey, PersonalInfoKey, ContactKey, SkillsKey, ExperienceKey, EducationKey}

  /** Every section has its own key, and the keys are exactly the six. */
  lemma {:induction false} KeysAreDistinct()
    ensures forall s, t :: Key(s) == Key(t) ==> s == t
    ensures forall k :: k in SectionKeys <==> exists s :: Key(s) == k
  {
    assert Key(ProjectsSection) == ProjectsKey;
    assert Key(PersonalInfoSection) == PersonalInfoKey;
    assert Key(ContactSection) == ContactKey;
    assert Key(SkillsSection) == SkillsKey;
    assert Key(ExperienceSection) == ExperienceKey;
    assert Key(EducationSection) == EducationKey;
  }

  /** The stored value is the JSON of a value of section `s`. */
  predicate Decodes(v: Stored, s: Section)
  {
    match s
    case ProjectsSection => v.ProjectsDoc?
    case PersonalInfoSection => v.PersonalInfoDoc?
    case ContactSection => v.ContactDoc?
    case SkillsSection => v.SkillsDoc?
    case ExperienceSection => v.ExperienceDoc?
    case EducationSection => v.EducationDoc?
  }

  /** `JSON.parse` succeeds on section `s`'s key, or the key is skipped. */
  predicate Parses(st: Storage, s: Section)
  {
    !Present(st, Key(s)) || Decodes(st[Key(s)], s)
  }

  /** No stored section value throws during the load. */
  predicate AllParse(st: Storage)
    ensures AllParse(st) <==> forall s :: Parses(st, s)
  {
    && Parses(st, ProjectsSection) && Parses(st, PersonalInfoSection) && Parses(st, ContactSection)
    && Parses(st, SkillsSection) && Parses(st, ExperienceSection) && Parses(st, EducationSection)
  }

  /** `{ ...base, ...patch }` for a personal-info object. */
  function MergePersonalInfo(base: PersonalInfo, p: PersonalInfoPatch): PersonalInfo
  {
    PersonalInfo(
      p.name.GetOr(base.name), p.title.GetOr(base.title), p.bio.GetOr(base.bio),
      p.avatar.GetOr(base.avatar), p.resume.GetOr(base.resume), p.tagline.GetOr(base.tagline),
      p.yearsOfExperience.GetOr(base.yearsOfExperience))
  }

  /** `{ ...base, ...patch }` for a contact object. */
  function MergeContact(base: Contact, p: ContactPatch): Contact
  {
    Contact(
      p.email.GetOr(base.email), p.phone.Or(base.phone), p.location.GetOr(base.location),
      p.linkedin.Or(base.linkedin), p.github.Or(base.github), p.website.Or(base.website),
      p.twitter.Or(base.twitter), p.instagram.Or(base.instagram))
  }

  /** What `JSON.stringify` stores for a personal-info record: every field. */
  function PersonalInfoPatchOf(pi: PersonalInfo): PersonalInfoPatch
  {
    PersonalInfoPatch(
      Some(pi.name), Some(pi.title), Some(pi.bio), Some(pi.avatar), Some(pi.resume),
      Some(pi.tagline), Some(pi.yearsOfExperience))
  }

  /** What `JSON.stringify` stores for a contact record: an absent optional
      field is left out of the JSON text altogether. */
  function ContactPatchOf(c: Contact): ContactPatch
  {
    ContactPatch(
      Some(c.email), c.phone, Some(c.location), c.linkedin, c.github, c.website,
      c.twitter, c.instagram)
  }

  /** Merging a full personal-info record replaces every field. */
  lemma {:induction false} MergeFullPersonalInfo(base: PersonalInfo, pi: PersonalInfo)
    ensures MergePersonalInfo(base, PersonalInfoPatchOf(pi)) == pi
  {
  }

  /** What a reload makes of a stored contact `c`: `c` with each optional
      field it lacks filled in from the baseline contact. */
  function Refill(base: Contact, c: Contact): (r: Contact)
    ensures r.email == c.email && r.location == c.location
    ensures c.phone.Some? ==> r.phone == c.phone
    ensures c.phone.None? ==> r.phone == base.phone
    ensures (forall f :: f in OptionalContactFields(c) ==> f in OptionalContactFields(r))
  {
    MergeContact(base, ContactPatchOf(c))
  }

  /** The names of the optional contact fields that are set. */
  function OptionalContactFields(c: Contact): set<string>
  {
    (if c.phone.Some? then {"phone"} else {}) + (if c.linkedin.Some? then {"linkedin"} else {})
    + (if c.github.Some? then {"github"} else {}) + (if c.website.Some? then {"website"} else {})
    + (if c.twitter.Some? then {"twitter"} else {}) + (if c.instagram.Some? then {"instagram"} else {})
  }

  /** A contact whose optional fields are all set survives a reload unchanged,
      and so does one whose unset fields are unset in the baseline too. */
  lemma {:induction false} RefillKeepsContact(base: Contact, c: Contact)
    requires OptionalContactFields(base) <= OptionalContactFields(c)
    ensures Refill(base, c) == c
  {
    if c.phone.None? { assert "phone" !in OptionalContactFields(base); }
    if c.linkedin.None? { assert "linkedin" !in OptionalContactFields(base); }
    if c.github.None? { assert "github" !in OptionalContactFields(base); }
    if c.website.None? { assert "website" !in OptionalContactFields(base); }
    if c.twitter.None? { assert "twitter" !in OptionalContactFields(base); }
    if c.instagram.None? { assert "instagram" !in OptionalContactFields(base); }
  }

  /** A contact that lacks an optional field the baseline has comes back with
      the baseline's value after a reload. */
  lemma {:induction false} RefillRestoresBaselinePhone(base: Contact, c: Contact)
    requires base.phone.Some? && c.phone.None?
    ensures Refill(base, c) != c
    ensures Refill(base, c).phone == base.phone
  {
  }

  /** Refilling is idempotent. */
  lemma {:induction false} RefillIdempotent(base: Contact, c: Contact)
    ensures Refill(base, Refill(base, c)) == Refill(base, c)
  {
  }

  /** The aggregate the load effect builds when every stored value parses:
      collections replaced, records shallow-merged over the baseline. */
  function Overlay(baseline: Portfolio, st: Storage): Portfolio
    requires AllParse(st)
  {
    assert Parses(st, ProjectsSection) && Parses(st, PersonalInfoSection) && Parses(st, ContactSection);
    assert Parses(st, SkillsSection) && Parses(st, ExperienceSection) && Parses(st, EducationSection);
    Portfolio(
      if Present(st, PersonalInfoKey)
      then MergePersonalInfo(baseline.personalInfo, st[PersonalInfoKey].personalInfo)
      else baseline.personalInfo,
      if Present(st, ProjectsKey) then st[ProjectsKey].projects else baseline.projects,
      if Present(st, SkillsKey) then st[SkillsKey].skills else baseline.skills,
      if Present(st, ExperienceKey) then st[ExperienceKey].experience else baseline.experience,
      if Present(st, EducationKey) then st[EducationKey].education else baseline.education,
      if Present(st, ContactKey)
      then MergeContact(baseline.contact, st[ContactKey].contact)
      else baseline.contact)
  }

  /** The data the load effect sets: the overlay, or the whole baseline as
      soon as any one stored value fails to parse. */
  function LoadData(baseline: Portfolio, st: Storage): (r: Portfolio)
    ensures !AllParse(st) ==> r == baseline
    ensures (forall s :: !Present(st, Key(s))) ==> r == baseline
    ensures AllParse(st) && Present(st, ProjectsKey) ==> r.projects == st[ProjectsKey].projects
    ensures AllParse(st) && Present(st, SkillsKey) ==> r.skills == st[SkillsKey].skills
    ensures AllParse(st) && Present(st, ExperienceKey) ==> r.experience == st[ExperienceKey].experience
    ensures AllParse(st) && Present(st, EducationKey) ==> r.education == st[EducationKey].education
    ensures AllParse(st) && Present(st, PersonalInfoKey) ==>
      r.personalInfo == MergePersonalInfo(baseline.personalInfo, st[PersonalInfoKey].personalInfo)
    ensures AllParse(st) && Present(st, ContactKey) ==>
      r.contact == MergeContact(baseline.contact, st[ContactKey].contact)
    ensures !Present(st, ProjectsKey) ==> r.projects == baseline.projects
    ensures !Present(st, SkillsKey) ==> r.skills == baseline.skills
    ensures !Present(st, ExperienceKey) ==> r.experience == baseline.experience
    ensures !Present(st, EducationKey) ==> r.education == baseline.education
    ensures !Present(st, PersonalInfoKey) ==> r.personalInfo == baseline.personalInfo
    ensures !Present(st, ContactKey) ==> r.contact == baseline.contact
  {
    if AllParse(st) then
      assert (forall s :: !Present(st, Key(s))) ==>
        (&& !Present(st, Key(ProjectsSection)) && !Present(st, Key(PersonalInfoSection))
         && !Present(st, Key(ContactSection)) && !Present(st, Key(SkillsSection))
         && !Present(st, Key(ExperienceSection)) && !Present(st, Key(EducationSection)));
      Overlay(baseline, st)
    else baseline
  }

  /** The hook's state: the aggregate it exposes and the loading flag. */
  datatype Store = Store(data: Portfolio, isLoading: bool)

  /** The first render: the baseline, still loading. */
  function Mount(baseline: Portfolio): (r: Store)
    ensures r.data == baseline && r.isLoading
  {
    Store(baseline, true)
  }

  /** The load effect, run once after mount as one synchronous step: it reads
      the six keys and settles, whatever happened, with loading finished. */
  function Load(baseline: Portfolio, st: Storage): (r: Store)
    ensures !r.isLoading
    ensures AllParse(st) ==> Persisted(baseline, r.data, st)
    ensures !AllParse(st) ==> r.data == baseline
  {
    var d := LoadData(baseline, st);
    LoadIsPersisted(baseline, st);
    Store(d, false)
  }

  /** The data agrees with storage: every stored value parses, and a reload
      would rebuild the data, up to the optional contact fields that the
      stored contact leaves out and the baseline fills back in. */
  predicate Persisted(baseline: Portfolio, data: Portfolio, st: Storage)
  {
    AllParse(st) && LoadData(baseline, st) == data.(contact := Refill(baseline.contact, data.contact))
  }

  lemma {:induction false} LoadIsPersisted(baseline: Portfolio, st: Storage)
    ensures AllParse(st) ==> Persisted(baseline, LoadData(baseline, st), st)
  {
    if AllParse(st) && Present(st, ContactKey) {
      assert Parses(st, ContactSection);
      RefillIdempotentOnMerge(baseline.contact, st[ContactKey].contact);
    }
  }

  lemma {:induction false} RefillIdempotentOnMerge(base: Contact, p: ContactPatch)
    ensures Refill(base, MergeContact(base, p)) == MergeContact(base, p)
  {
  }

  /** One `updateX`: write the section's key, then set the section; if the
      write throws, the error is logged and nothing changes. */
  function Write(st0: (Store, Storage), s: Section, doc: Stored, data: Portfolio, failing: set<string>): (r: (Store, Storage))
    ensures Key(s) in failing ==> r == st0
    ensures Key(s) !in failing ==> r.0 == st0.0.(data := data) && Key(s) in r.1 && r.1[Key(s)] == doc
    ensures OnlyKeyChanged(st0.1, r.1, Key(s))
  {
    match SetItem(st0.1, Key(s), doc, failing)
    case None => st0
    case Some(st) => (st0.0.(data := data), st)
  }

  /** Storage after a write of section `s`: only its key differs. */
  ghost predicate OnlyKeyChanged(st: Storage, st': Storage, k: string)
  {
    && (forall j :: j != k ==> (j in st' <==> j in st))
    && (forall j :: j != k && j in st ==> st'[j] == st[j])
  }

  /** `updateProjects`. */
  function UpdateProjects(baseline: Portfolio, s: Store, st: Storage, projects: seq<Project>, failing: set<string>): (r: (Store, Storage))
    ensures ProjectsKey in failing ==> r == (s, st)
    ensures ProjectsKey !in failing ==> r.0.data.projects == projects && ProjectsKey in r.1 && r.1[ProjectsKey] == ProjectsDoc(projects)
    ensures r.0.data.(projects := s.data.projects) == s.data && r.0.isLoading == s.isLoading
    ensures OnlyKeyChanged(st, r.1, ProjectsKey)
    ensures Persisted(baseline, s.data, st) ==> Persisted(baseline, r.0.data, r.1)
  {
    Write((s, st), ProjectsSection, ProjectsDoc(projects), s.data.(projects := projects), failing)
  }

  /** `updatePersonalInfo`. */
  function UpdatePersonalInfo(baseline: Portfolio, s: Store, st: Storage, pi: PersonalInfo, failing: set<string>): (r: (Store, Storage))
    ensures PersonalInfoKey in failing ==> r == (s, st)
    ensures PersonalInfoKey !in failing ==> r.0.data.personalInfo == pi && PersonalInfoKey in r.1 && r.1[PersonalInfoKey] == PersonalInfoDoc(PersonalInfoPatchOf(pi))
    ensures r.0.data.(personalInfo := s.data.personalInfo) == s.data && r.0.isLoading == s.isLoading
    ensures OnlyKeyChanged(st, r.1, PersonalInfoKey)
    ensures Persisted(baseline, s.data, st) ==> Persisted(baseline, r.0.data, r.1)
  {
    Write((s, st), PersonalInfoSection, PersonalInfoDoc(PersonalInfoPatchOf(pi)), s.data.(personalInfo := pi), failing)
  }

  /** `updateContact`. */
  function UpdateContact(baseline: Portfolio, s: Store, st: Storage, c: Contact, failing: set<string>): (r: (Store, Storage))
    ensures ContactKey in failing ==> r == (s, st)
    ensures ContactKey !in failing ==> r.0.data.contact == c && ContactKey in r.1 && r.1[ContactKey] == ContactDoc(ContactPatchOf(c))
    ensures r.0.data.(contact := s.data.contact) == s.data && r.0.isLoading == s.isLoading
    ensures OnlyKeyChanged(st, r.1, ContactKey)
    ensures Persisted(baseline, s.data, st) ==> Persisted(baseline, r.0.data, r.1)
  {
    Write((s, st), ContactSection, ContactDoc(ContactPatchOf(c)), s.data.(contact := c), failing)
  }

  /** `updateSkills`. */
  function UpdateSkills(baseline: Portfolio, s: Store, st: Storage, skills: seq<Skill>, failing: set<string>): (r: (Store, Storage))
    ensures SkillsKey in failing ==> r == (s, st)
    ensures SkillsKey !in failing ==> r.0.data.skills == skills && SkillsKey in r.1 && r.1[SkillsKey] == SkillsDoc(skills)
    ensures r.0.data.(skills := s.data.skills) == s.data && r.0.isLoading == s.isLoading
    ensures OnlyKeyChanged(st, r.1, SkillsKey)
    ensures Persisted(baseline, s.data, st) ==> Persisted(baseline, r.0.data, r.1)
  {
    Write((s, st), SkillsSection, SkillsDoc(skills), s.data.(skills := skills), failing)
  }

  /** `updateExperience`. */
  function UpdateExperience(baseline: Portfolio, s: Store, st: Storage, experience: seq<Experience>, failing: set<string>): (r: (Store, Storage))
    ensures ExperienceKey in failing ==> r == (s, st)
    ensures ExperienceKey !in failing ==> r.0.data.experience == experience && ExperienceKey in r.1 && r.1[ExperienceKey] == ExperienceDoc(experience)
    ensures r.0.data.(experience := s.data.experience) == s.data && r.0.isLoading == s.isLoading
    ensures OnlyKeyChanged(st, r.1, ExperienceKey)
    ensures Persisted(baseline, s.data, st) ==> Persisted(baseline, r.0.data, r.1)
  {
    Write((s, st), ExperienceSection, ExperienceDoc(experience), s.data.(experience := experience), failing)
  }

  /** `updateEducation`. */
  function UpdateEducation(baseline: Portfolio, s: Store, st: Storage, education: seq<Education>, failing: set<string>): (r: (Store, Storage))
    ensures EducationKey in failing ==> r == (s, st)
    ensures EducationKey !in failing ==> r.0.data.education == education && EducationKey in r.1 && r.1[EducationKey] == EducationDoc(education)
    ensures r.0.data.(education := s.data.education) == s.data && r.0.isLoading == s.isLoading
    ensures OnlyKeyChanged(st, r.1, EducationKey)
    ensures Persisted(baseline, s.data, st) ==> Persisted(baseline, r.0.data, r.1)
  {
    Write((s, st), EducationSection, EducationDoc(education), s.data.(education := education), failing)
  }

  /** `clearAllData`: remove the six section keys and restore the baseline.
      (`removeItem` does not throw.) */
  function ClearAllData(baseline: Portfolio, s: Store, st: Storage): (r: (Store, Storage))
    ensures r.0.data == baseline && r.0.isLoading == s.isLoading
    ensures forall k :: k in SectionKeys ==> k !in r.1
    ensures forall k :: k !in SectionKeys ==> (k in r.1 <==> k in st)
    ensures forall k :: k !in SectionKeys && k in st ==> r.1[k] == st[k]
    ensures Persisted(baseline, r.0.data, r.1)
    ensures LoadData(baseline, r.1) == baseline
  {
    var st' := RemoveItem(RemoveItem(RemoveItem(RemoveItem(RemoveItem(RemoveItem(
      st, ProjectsKey), PersonalInfoKey), ContactKey), SkillsKey), ExperienceKey), EducationKey);
    assert forall sec :: Key(sec) in SectionKeys;
    (s.(data := baseline), st')
  }

  /** `exportAllData`: the current data. */
  function ExportAllData(s: Store): Portfolio
  {
    s.data
  }

  /** How a call that may throw ended, with the state it left either way. */
  datatype Outcome = Returned(store: Store, storage: Storage) | Threw(store: Store, storage: Storage)

  /** The six writes `importAllData` performs, in order. */
  function ImportWrites(a: Portfolio): seq<(string, Stored)>
  {
    [ (ProjectsKey, ProjectsDoc(a.projects)),
      (PersonalInfoKey, PersonalInfoDoc(PersonalInfoPatchOf(a.personalInfo))),
      (ContactKey, ContactDoc(ContactPatchOf(a.contact))),
      (SkillsKey, SkillsDoc(a.skills)),
      (ExperienceKey, ExperienceDoc(a.experience)),
      (EducationKey, EducationDoc(a.education)) ]
  }

  /** The position of the first write that throws, or `|writes|`. */
  function FirstFailing(writes: seq<(string, Stored)>, failing: set<string>): (f: nat)
    ensures f <= |writes|
    ensures f < |writes| ==> writes[f].0 in failing
    ensures forall i :: 0 <= i < f ==> writes[i].0 !in failing
  {
    if writes == [] || writes[0].0 in failing then 0
    else 1 + FirstFailing(writes[1..], failing)
  }

  /** No key is written twice. */
  predicate DistinctKeys(writes: seq<(string, Stored)>)
  {
    forall i, j :: 0 <= i < j < |writes| ==> writes[i].0 != writes[j].0
  }

  /** Performs `writes` in order until one throws; returns the storage and
      whether every write succeeded. The writes before the failing one stay
      in storage. */
  function WriteInOrder(st: Storage, writes: seq<(string, Stored)>, failing: set<string>): (r: (Storage, bool))
    requires DistinctKeys(writes)
    ensures r.1 <==> FirstFailing(writes, failing) == |writes|
    ensures forall i :: 0 <= i < FirstFailing(writes, failing) ==>
      writes[i].0 in r.0 && r.0[writes[i].0] == writes[i].1
    ensures forall j :: (forall i :: 0 <= i < FirstFailing(writes, failing) ==> writes[i].0 != j) ==>
      (j in r.0 <==> j in st) && (j in st ==> r.0[j] == st[j])
    decreases |writes|
  {
    if writes == [] then (st, true)
    else match SetItem(st, writes[0].0, writes[0].1, failing)
      case None => (st, false)
      case Some(st') =>
        var r := WriteInOrder(st', writes[1..], failing);
        assert forall i :: 0 <= i < |writes[1..]| ==> writes[1..][i].0 != writes[0].0;
        r
  }

  /** The keys `importAllData` writes are the six section keys, once each. */
  lemma {:induction false} ImportWritesKeys(a: Portfolio)
    ensures DistinctKeys(ImportWrites(a))
    ensures forall i :: 0 <= i < |ImportWrites(a)| ==> ImportWrites(a)[i].0 in SectionKeys
    ensures forall k :: k in SectionKeys ==> exists i :: 0 <= i < |ImportWrites(a)| && ImportWrites(a)[i].0 == k
  {
    var w := ImportWrites(a);
    assert w[0].0 == ProjectsKey && w[1].0 == PersonalInfoKey && w[2].0 == ContactKey;
    assert w[3].0 == SkillsKey && w[4].0 == ExperienceKey && w[5].0 == EducationKey;
  }

  /** `importAllData`: write every section's key, then replace the data;
      if a write throws, the keys written before it stay written, the data is
      unchanged and the error is rethrown. */
  function ImportAllData(baseline: Portfolio, s: Store, st: Storage, a: Portfolio, failing: set<string>): (r: Outcome)
    ensures r.Returned? <==> SectionKeys !! failing
    ensures r.Returned? ==> r.store.data == a && Persisted(baseline, a, r.storage)
    ensures r.Threw? ==> r.store == s
    ensures DistinctKeys(ImportWrites(a))
    ensures var w := ImportWrites(a); var f := FirstFailing(w, failing);
      && (forall i :: 0 <= i < f ==> w[i].0 in r.storage && r.storage[w[i].0] == w[i].1)
      && (forall k :: (forall i :: 0 <= i < f ==> w[i].0 != k) ==>
            (k in r.storage <==> k in st) && (k in st ==> r.storage[k] == st[k]))
    ensures forall k :: k !in SectionKeys ==> (k in r.storage <==> k in st)
    ensures forall k :: k !in SectionKeys && k in st ==> r.storage[k] == st[k]
    ensures r.store.isLoading == s.isLoading
  {
    var writes := ImportWrites(a);
    ImportWritesKeys(a);
    var w := WriteInOrder(st, writes, failing);
    if w.1 then
      assert SectionKeys !! failing;
      ImportedIsPersisted(baseline, a, w.0);
      Returned(s.(data := a), w.0)
    else
      assert writes[FirstFailing(writes, failing)].0 in SectionKeys * failing;
      Threw(s, w.0)
  }

  /** Storage holding the six documents of `a` reloads as `a`, up to refilled
      contact fields. */
  lemma {:induction false} ImportedIsPersisted(baseline: Portfolio, a: Portfolio, st: Storage)
    requires var w := ImportWrites(a);
      forall i :: 0 <= i < |w| ==> w[i].0 in st && st[w[i].0] == w[i].1
    ensures Persisted(baseline, a, st)
  {
    var w := ImportWrites(a);
    assert st[w[0].0] == w[0].1 && st[w[1].0] == w[1].1 && st[w[2].0] == w[2].1;
    assert st[w[3].0] == w[3].1 && st[w[4].0] == w[4].1 && st[w[5].0] == w[5].1;
    assert AllParse(st);
  }

  /** Exporting after a successful import returns exactly the imported aggregate. */
  lemma {:induction false} ExportAfterImport(baseline: Portfolio, s: Store, st: Storage, a: Portfolio, failing: set<string>)
    requires SectionKeys !! failing
    ensures var r := ImportAllData(baseline, s, st, a, failing);
      r.Returned? && ExportAllData(r.store) == a
  {
  }

  /** Reloading after a successful import rebuilds the imported aggregate,
      up to the optional contact fields it leaves unset. */
  lemma {:induction false} ReloadAfterImport(baseline: Portfolio, s: Store, st: Storage, a: Portfolio, failing: set<string>)
    requires SectionKeys !! failing
    requires OptionalContactFields(baseline.contact) <= OptionalContactFields(a.contact)
    ensures var r := ImportAllData(baseline, s, st, a, failing);
      r.Returned? && Load(baseline, r.storage).data == a
  {
    RefillKeepsContact(baseline.contact, a.contact);
  }

  /** An import whose write of personal info throws leaves the projects
      override of the imported aggregate behind while the data keeps the old
      projects: storage and data disagree. */
  lemma {:induction false} PartialImportDiverges(baseline: Portfolio, s: Store, st: Storage, a: Portfolio)
    requires AllParse(st)
    requires a.projects != s.data.projects
    ensures var r := ImportAllData(baseline, s, st, a, {PersonalInfoKey});
      r.Threw? && r.store.data.projects != a.projects
      && r.storage[ProjectsKey] == ProjectsDoc(a.projects)
      && LoadData(baseline, r.storage).projects != r.store.data.projects
  {
    var r := ImportAllData(baseline, s, st, a, {PersonalInfoKey});
    var w := ImportWrites(a);
    assert FirstFailing(w, {PersonalInfoKey}) == 1;
    assert r.storage[ProjectsKey] == ProjectsDoc(a.projects);
    forall sec | sec != ProjectsSection ensures Parses(r.storage, sec) {
      assert Parses(st, sec);
      assert Key(sec) != ProjectsKey;
    }
    assert Parses(r.storage, ProjectsSection);
  }

  /** A parsed import document: each section present, or absent
      (`undefined`). A present `projects` is an array. */
  datatype ImportDoc = ImportDoc(
    personalInfo: Option<PersonalInfo>,
    projects: Option<seq<Project>>,
    skills: Option<seq<Skill>>,
    experience: Option<seq<Experience>>,
    education: Option<seq<Education>>,
    contact: Option<Contact>)

  /** `localStorage.setItem(k, JSON.stringify(undefined))` stores the string
      "undefined", which is truthy and does not parse as JSON. */
  const UndefinedText := Text("undefined")

  /** The document of a whole aggregate. */
  function DocOf(a: Portfolio): ImportDoc
  {
    ImportDoc(Some(a.personalInfo), Some(a.projects), Some(a.skills), Some(a.experience),
      Some(a.education), Some(a.contact))
  }

  /** Every section is present. */
  predicate Complete(d: ImportDoc)
  {
    && d.personalInfo.Some? && d.projects.Some? && d.skills.Some?
    && d.experience.Some? && d.education.Some? && d.contact.Some?
  }

  /** The aggregate a complete document denotes. */
  function AggregateOf(d: ImportDoc): (a: Portfolio)
    requires Complete(d)
    ensures DocOf(a) == d
  {
    Portfolio(d.personalInfo.value, d.projects.value, d.skills.value, d.experience.value,
      d.education.value, d.contact.value)
  }

  /** The six writes `importAllData` performs for a document, in order; an
      absent section writes "undefined". */
  function DocWrites(d: ImportDoc): (w: seq<(string, Stored)>)
    ensures Complete(d) ==> w == ImportWrites(AggregateOf(d))
  {
    [ (ProjectsKey, match d.projects case Some(v) => ProjectsDoc(v) case None => UndefinedText),
      (PersonalInfoKey, match d.personalInfo case Some(v) => PersonalInfoDoc(PersonalInfoPatchOf(v)) case None => UndefinedText),
      (ContactKey, match d.contact case Some(v) => ContactDoc(ContactPatchOf(v)) case None => UndefinedText),
      (SkillsKey, match d.skills case Some(v) => SkillsDoc(v) case None => UndefinedText),
      (ExperienceKey, match d.experience case Some(v) => ExperienceDoc(v) case None => UndefinedText),
      (EducationKey, match d.education case Some(v) => EducationDoc(v) case None => UndefinedText) ]
  }

  /** The writes for a document go to the six section keys, once each. */
  lemma {:induction false} DocWritesKeys(d: ImportDoc)
    ensures DistinctKeys(DocWrites(d))
    ensures forall i :: 0 <= i < |DocWrites(d)| ==> DocWrites(d)[i].0 in SectionKeys
    ensures forall k :: k in SectionKeys ==> exists i :: 0 <= i < |DocWrites(d)| && DocWrites(d)[i].0 == k
  {
    var w := DocWrites(d);
    assert w[0].0 == ProjectsKey && w[1].0 == PersonalInfoKey && w[2].0 == ContactKey;
    assert w[3].0 == SkillsKey && w[4].0 == ExperienceKey && w[5].0 == EducationKey;
  }

  /** The data after `setData(importedData)`, as far as a `Portfolio` can hold
      it: the present sections replace the current ones. */
  function WithSections(data: Portfolio, d: ImportDoc): (r: Portfolio)
    ensures Complete(d) ==> r == AggregateOf(d)
    ensures d.projects.Some? ==> r.projects == d.projects.value
  {
    Portfolio(d.personalInfo.GetOr(data.personalInfo), d.projects.GetOr(data.projects),
      d.skills.GetOr(data.skills), d.experience.GetOr(data.experience),
      d.education.GetOr(data.education), d.contact.GetOr(data.contact))
  }

  /** `importAllData` on whatever document it is handed: the six writes in
      order, then the data set; a throw keeps the earlier writes and the old
      data and is rethrown. */
  function ImportDocument(s: Store, st: Storage, d: ImportDoc, failing: set<string>): (r: Outcome)
    ensures r.Returned? <==> SectionKeys !! failing
    ensures r.Returned? ==> r.store == s.(data := WithSections(s.data, d))
    ensures r.Threw? ==> r.store == s
    ensures r.Returned? ==> forall i :: 0 <= i < |DocWrites(d)| ==>
      DocWrites(d)[i].0 in r.storage && r.storage[DocWrites(d)[i].0] == DocWrites(d)[i].1
    ensures var w := DocWrites(d); var f := FirstFailing(w, failing);
      && (forall i :: 0 <= i < f ==> w[i].0 in r.storage && r.storage[w[i].0] == w[i].1)
      && (forall k :: (forall i :: 0 <= i < f ==> w[i].0 != k) ==>
            (k in r.storage <==> k in st) && (k in st ==> r.storage[k] == st[k]))
  {
    var writes := DocWrites(d);
    DocWritesKeys(d);
    var w := WriteInOrder(st, writes, failing);
    if w.1 then
      assert SectionKeys !! failing;
      Returned(s.(data := WithSections(s.data, d)), w.0)
    else
      assert writes[FirstFailing(writes, failing)].0 in SectionKeys * failing;
      Threw(s, w.0)
  }

  /** On a complete document the import is the import of its aggregate. */
  lemma {:induction false} CompleteDocumentImports(baseline: Portfolio, s: Store, st: Storage, d: ImportDoc, failing: set<string>)
    requires Complete(d)
    ensures ImportDocument(s, st, d, failing) == ImportAllData(baseline, s, st, AggregateOf(d), failing)
  {
  }

  /** A document missing a section, once imported, stores "undefined" under
      that section's key; the next load cannot parse it and shows the whole
      baseline, so the imported sections are lost on reload. */
  lemma {:induction false} IncompleteImportReloadsBaseline(baseline: Portfolio, s: Store, st: Storage, d: ImportDoc, failing: set<string>)
    requires !Complete(d) && SectionKeys !! failing
    ensures var r := ImportDocument(s, st, d, failing);
      r.Returned? && !AllParse(r.storage) && LoadData(baseline, r.storage) == baseline
  {
    var r := ImportDocument(s, st, d, failing);
    var w := DocWrites(d);
    var i := UndefinedWrite(d);
    DocWritesKeys(d);
    UndefinedSectionBreaksLoad(r.storage, w[i].0);
  }

  /** A document missing a section writes "undefined" somewhere. */
  lemma {:induction false} UndefinedWrite(d: ImportDoc) returns (i: nat)
    requires !Complete(d)
    ensures i < |DocWrites(d)| && DocWrites(d)[i].1 == UndefinedText
  {
    if d.projects.None? { i := 0; }
    else if d.personalInfo.None? { i := 1; }
    else if d.contact.None? { i := 2; }
    else if d.skills.None? { i := 3; }
    else if d.experience.None? { i := 4; }
    else { i := 5; }
  }

  /** "undefined" under a section key makes the load throw. */
  lemma {:induction false} UndefinedSectionBreaksLoad(st: Storage, k: string)
    requires k in SectionKeys && k in st && st[k] == UndefinedText
    ensures !AllParse(st)
  {
    KeysAreDistinct();
    var sec :| Key(sec) == k;
    assert !Parses(st, sec);
  }
}
