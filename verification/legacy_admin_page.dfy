/** The earlier admin page (src/app/admin/page.tsx): it edits a copy of the
    bundled projects, compares against the bundled list rather than the
    store, and writes the list to storage on Save without the store ever
    learning of it. */
module LegacyAdminPage {
  import opened Types
  import opened LocalStorage
  import PortfolioData

  /** The JSON import file after parsing, as on the storage-backed page. */
  datatype ImportFile = Unparsable | Parsed(hasProjectsArray: bool, aggregate: Portfolio)

  datatype LegacyPage = LegacyPage(projects: seq<Project>, hasChanges: bool, storage: Storage)

  /** The change flag is the structural difference from the bundled list,
      except right after a save. */
  predicate TracksBundled(baseline: Portfolio, p: LegacyPage)
  {
    p.hasChanges <==> p.projects != baseline.projects
  }

  /** The first render with its effect: the bundled list and no changes. */
  function Mount(baseline: Portfolio, storage: Storage): (r: LegacyPage)
    ensures r.projects == baseline.projects && !r.hasChanges && r.storage == storage
    ensures TracksBundled(baseline, r)
  {
    LegacyPage(baseline.projects, false, storage)
  }

  /** `setProjects` followed by the effect on `[projects]`. */
  function SetProjects(baseline: Portfolio, p: LegacyPage, projects: seq<Project>): (r: LegacyPage)
    ensures r.projects == projects && r.storage == p.storage
    ensures TracksBundled(baseline, r)
  {
    p.(projects := projects, hasChanges := projects != baseline.projects)
  }

  /** `handleExportData`: the bundled aggregate with the edited projects. */
  function HandleExportData(baseline: Portfolio, p: LegacyPage): (r: Portfolio)
    ensures r.projects == p.projects
    ensures r.personalInfo == baseline.personalInfo && r.skills == baseline.skills
      && r.experience == baseline.experience && r.education == baseline.education
      && r.contact == baseline.contact
  {
    baseline.(projects := p.projects)
  }

  /** `handleImportData`: only a file with a `projects` array replaces the
      list (the alerts are left out). */
  function HandleImportData(baseline: Portfolio, p: LegacyPage, file: ImportFile): (r: LegacyPage)
    ensures file.Parsed? && file.hasProjectsArray ==> r == SetProjects(baseline, p, file.aggregate.projects)
    ensures !(file.Parsed? && file.hasProjectsArray) ==> r == p
  {
    match file
    case Unparsable => p
    case Parsed(isArray, a) => if isArray then SetProjects(baseline, p, a.projects) else p
  }

  /** The Save button is enabled only with changes. */
  predicate SaveEnabled(p: LegacyPage)
  {
    p.hasChanges
  }

  /** `handleSaveChanges`: a failed write leaves the page as it was. */
  function HandleSaveChanges(p: LegacyPage, failing: set<string>): (r: LegacyPage)
    ensures r.projects == p.projects
    ensures PortfolioData.ProjectsKey in failing ==> r == p
    ensures PortfolioData.ProjectsKey !in failing ==>
      && !r.hasChanges
      && r.storage == p.storage[PortfolioData.ProjectsKey := ProjectsDoc(p.projects)]
  {
    match SetItem(p.storage, PortfolioData.ProjectsKey, ProjectsDoc(p.projects), failing)
    case None => p
    case Some(st) => p.(hasChanges := false, storage := st)
  }

  /** After a successful save the button stays disabled, although the list
      still differs from the bundled one, until the next edit. */
  lemma {:induction false} SavedEditDisablesSave(baseline: Portfolio, p: LegacyPage, failing: set<string>)
    requires TracksBundled(baseline, p) && SaveEnabled(p) && PortfolioData.ProjectsKey !in failing
    ensures var r := HandleSaveChanges(p, failing);
      !SaveEnabled(r) && !TracksBundled(baseline, r)
  {
  }

  /** The saved list is what the store loads on the next visit, whatever
      the page itself shows. */
  lemma {:induction false} SavedListIsLoaded(baseline: Portfolio, p: LegacyPage, failing: set<string>)
    requires PortfolioData.ProjectsKey !in failing
    requires PortfolioData.AllParse(p.storage)
    ensures var r := HandleSaveChanges(p, failing);
      PortfolioData.LoadData(baseline, r.storage).projects == p.projects
  {
  }
}
