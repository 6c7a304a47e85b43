/** The storage-backed admin page (src/app/admin/page-new.tsx): a local copy
    of the project list edited through the project editor, an "unsaved
    changes" flag kept by two React effects, and save, import, export and
    reset actions over the data store. */
module AdminPage {
  import opened Wrappers
  import opened Types
  import opened Seqs
  import opened LocalStorage
  import PortfolioData

  datatype MessageKind = SuccessMessage | ErrorMessage | InfoMessage

  /** The banner the page shows (its five-second timer is not modelled). */
  datatype Message = Message(kind: MessageKind, text: string)

  const SavedText := "Changes saved successfully! Your portfolio is now updated."
  const ExportedText := "Portfolio data exported successfully!"
  const ImportedText := "Data imported successfully! Your changes are now live."
  const InvalidFormatText := "Invalid data format. Please ensure the file contains valid portfolio data."
  const ParseErrorText := "Error parsing JSON file. Please check the file format."
  const ResetText := "Portfolio data has been reset to original state."
  const SaveFailedText := "Error saving changes. Please try again."

  /** The page's state together with the store it reads and the storage
      below it. */
  datatype Page = Page(
    store: PortfolioData.Store,
    storage: Storage,
    local: seq<Project>,
    hasChanges: bool,
    message: Option<Message>)

  /** The unsaved-changes flag says whether the local list differs from the
      stored one, once loading is over. */
  predicate Consistent(p: Page)
  {
    !p.store.isLoading ==> (p.hasChanges <==> p.local != p.store.data.projects)
  }

  /** The two effects after a render in which the named dependencies changed
      identity: the first copies the stored projects into the local list once
      loading is over; the second recomputes the flag by structural
      comparison whenever either list changed. */
  function Settle(p: Page, localChanged: bool, storedChanged: bool, loadingChanged: bool): (r: Page)
    ensures r.store == p.store && r.storage == p.storage && r.message == p.message
    ensures (localChanged || storedChanged || loadingChanged) && !p.store.isLoading ==> Consistent(r)
    ensures !p.store.isLoading && (storedChanged || loadingChanged) ==> r.local == p.store.data.projects
    ensures !(localChanged || storedChanged || loadingChanged) ==> r == p
  {
    var reload := !p.store.isLoading && (storedChanged || loadingChanged);
    var local := if reload then p.store.data.projects else p.local;
    var flag := if localChanged || storedChanged || reload then local != p.store.data.projects else p.hasChanges;
    p.(local := local, hasChanges := flag)
  }

  /** The first render and its effects: an empty local list while loading. */
  function Mount(baseline: Portfolio, storage: Storage): (r: Page)
    ensures r.store.isLoading && r.local == [] && r.message.None?
    ensures r.hasChanges <==> baseline.projects != []
  {
    Settle(Page(PortfolioData.Mount(baseline), storage, [], false, None), true, true, true)
  }

  /** The store's load effect finishing, then the page's effects. */
  function Load(baseline: Portfolio, p: Page): (r: Page)
    ensures !r.store.isLoading && Consistent(r) && !r.hasChanges
    ensures r.local == r.store.data.projects
    ensures r.store == PortfolioData.Load(baseline, p.storage)
  {
    Settle(p.(store := PortfolioData.Load(baseline, p.storage)), false, true, true)
  }

  /** `handleProjectsUpdate`: the project editor's `onUpdate`. */
  function HandleProjectsUpdate(p: Page, projects: seq<Project>): (r: Page)
    requires !p.store.isLoading
    ensures r.local == projects && Consistent(r)
    ensures r.hasChanges <==> projects != p.store.data.projects
    ensures r.store == p.store && r.storage == p.storage
  {
    Settle(p.(local := projects), true, false, false)
  }

  /** `handleSaveChanges` as written. `updateProjects` logs a failed write
      instead of throwing, so the page's own error branch never runs: the
      success banner appears and the flag is cleared whether or not the
      list reached storage. */
  function HandleSaveChanges(baseline: Portfolio, p: Page, failing: set<string>): (r: Page)
    requires !p.store.isLoading
    ensures !p.hasChanges ==> r == p
    ensures p.hasChanges ==> !r.hasChanges && r.message == Some(Message(SuccessMessage, SavedText))
    ensures p.hasChanges && PortfolioData.ProjectsKey !in failing ==>
      r.store.data.projects == p.local && Consistent(r)
      && PortfolioData.ProjectsKey in r.storage && r.storage[PortfolioData.ProjectsKey] == ProjectsDoc(p.local)
    ensures p.hasChanges && PortfolioData.ProjectsKey !in failing ==>
      && r.store == p.store.(data := p.store.data.(projects := p.local))
      && PortfolioData.OnlyKeyChanged(p.storage, r.storage, PortfolioData.ProjectsKey)
    ensures p.hasChanges && PortfolioData.ProjectsKey in failing ==>
      r.store == p.store && r.storage == p.storage
    ensures r.local == p.local
  {
    if !p.hasChanges then p
    else
      var w := PortfolioData.UpdateProjects(baseline, p.store, p.storage, p.local, failing);
      var saved := PortfolioData.ProjectsKey !in failing;
      Settle(p.(store := w.0, storage := w.1, hasChanges := false,
        message := Some(Message(SuccessMessage, SavedText))), false, saved, false)
  }

  /** A failed write during Save leaves a consistent page inconsistent: the
      flag says "saved" and the banner reports success while the stored list
      still differs from the local one. */
  lemma {:induction false} SaveFailureReportsSuccess(baseline: Portfolio, p: Page)
    requires !p.store.isLoading && Consistent(p) && p.hasChanges
    ensures var r := HandleSaveChanges(baseline, p, {PortfolioData.ProjectsKey});
      && !r.hasChanges && r.local != r.store.data.projects && !Consistent(r)
      && r.message == Some(Message(SuccessMessage, SavedText))
      && r.storage == p.storage
  {
  }

  /** Save with the write's outcome reported back: on failure the flag is
      kept and the error banner shown. */
  function HandleSaveChangesReported(baseline: Portfolio, p: Page, failing: set<string>): (r: Page)
    requires !p.store.isLoading
    ensures !p.hasChanges ==> r == p
    ensures Consistent(p) ==> Consistent(r)
    ensures p.hasChanges ==>
      (r.message == Some(Message(SuccessMessage, SavedText)) <==> PortfolioData.ProjectsKey !in failing)
    ensures p.hasChanges && PortfolioData.ProjectsKey in failing ==>
      r.hasChanges && r.store == p.store && r.storage == p.storage
  {
    if !p.hasChanges then p
    else if PortfolioData.ProjectsKey in failing then
      p.(message := Some(Message(ErrorMessage, SaveFailedText)))
    else
      HandleSaveChanges(baseline, p, failing)
  }

  /** An import file after `JSON.parse`: unparsable, or a document whose
      sections may each be present or absent. */
  datatype ImportFile = Unparsable | Parsed(doc: PortfolioData.ImportDoc)

  /** `handleImportData`'s reader callback. Any document with a `projects`
      array is handed to `importAllData`, whatever else it lacks. */
  function HandleImportData(baseline: Portfolio, p: Page, file: ImportFile, failing: set<string>): (r: Page)
    requires !p.store.isLoading
    ensures file.Unparsable? ==> r == p.(message := Some(Message(ErrorMessage, ParseErrorText)))
    ensures file.Parsed? && file.doc.projects.None? ==>
      r == p.(message := Some(Message(ErrorMessage, InvalidFormatText)))
    ensures file.Parsed? && file.doc.projects.Some? && PortfolioData.SectionKeys !! failing ==>
      && r.store.data == PortfolioData.WithSections(p.store.data, file.doc)
      && r.local == file.doc.projects.value
      && !r.hasChanges && Consistent(r)
      && r.message == Some(Message(SuccessMessage, ImportedText))
    ensures file.Parsed? && !PortfolioData.Complete(file.doc) ==>
      file.doc.projects.Some? && PortfolioData.SectionKeys !! failing ==>
        PortfolioData.LoadData(baseline, r.storage) == baseline
    ensures file.Parsed? && file.doc.projects.Some? && !(PortfolioData.SectionKeys !! failing) ==>
      && r.store == p.store && r.local == p.local && r.hasChanges == p.hasChanges
      && r.message == Some(Message(ErrorMessage, ParseErrorText))
    ensures Consistent(p) ==> Consistent(r)
  {
    match file
    case Unparsable => p.(message := Some(Message(ErrorMessage, ParseErrorText)))
    case Parsed(d) =>
      if d.projects.None? then p.(message := Some(Message(ErrorMessage, InvalidFormatText)))
      else
        var r := ImportedPage(p, d, failing);
        if PortfolioData.SectionKeys !! failing && !PortfolioData.Complete(d) then
          PortfolioData.IncompleteImportReloadsBaseline(baseline, p.store, p.storage, d, failing);
          r
        else r
  }

  /** The page after `importAllData` with a document holding projects. */
  function ImportedPage(p: Page, d: PortfolioData.ImportDoc, failing: set<string>): (r: Page)
    requires !p.store.isLoading && d.projects.Some?
    ensures var o := PortfolioData.ImportDocument(p.store, p.storage, d, failing);
      r.storage == o.storage
    ensures PortfolioData.SectionKeys !! failing ==>
      && r.store.data == PortfolioData.WithSections(p.store.data, d) && !r.store.isLoading
      && r.local == d.projects.value && !r.hasChanges && Consistent(r)
      && r.message == Some(Message(SuccessMessage, ImportedText))
    ensures !(PortfolioData.SectionKeys !! failing) ==>
      r == p.(storage := r.storage, message := Some(Message(ErrorMessage, ParseErrorText)))
  {
    match PortfolioData.ImportDocument(p.store, p.storage, d, failing)
    case Returned(store, storage) =>
      Settle(Page(store, storage, d.projects.value, p.hasChanges, Some(Message(SuccessMessage, ImportedText))),
        true, true, false)
    case Threw(store, storage) =>
      p.(storage := storage, message := Some(Message(ErrorMessage, ParseErrorText)))
  }

  /** A file holding only projects is accepted and shown, but the next visit
      loads the bundled projects again: the import does not survive. */
  lemma {:induction false} ProjectsOnlyImportIsLost(baseline: Portfolio, p: Page, projects: seq<Project>, failing: set<string>)
    requires !p.store.isLoading && PortfolioData.SectionKeys !! failing
    ensures var doc := PortfolioData.ImportDoc(None, Some(projects), None, None, None, None);
      var r := HandleImportData(baseline, p, Parsed(doc), failing);
      && r.local == projects && r.message == Some(Message(SuccessMessage, ImportedText))
      && Load(baseline, Mount(baseline, r.storage)).local == baseline.projects
  {
    var doc := PortfolioData.ImportDoc(None, Some(projects), None, None, None, None);
    assert !PortfolioData.Complete(doc);
  }

  /** `handleExportData`: the document downloaded is the store's data. */
  function HandleExportData(p: Page): (r: (Page, Portfolio))
    ensures r.1 == p.store.data
    ensures r.0 == p.(message := Some(Message(SuccessMessage, ExportedText)))
  {
    (p.(message := Some(Message(SuccessMessage, ExportedText))), PortfolioData.ExportAllData(p.store))
  }

  /** Exporting right after an accepted import downloads the imported aggregate. */
  lemma {:induction false} ExportAfterImport(baseline: Portfolio, p: Page, a: Portfolio, failing: set<string>)
    requires !p.store.isLoading && PortfolioData.SectionKeys !! failing
    ensures HandleExportData(HandleImportData(baseline, p, Parsed(PortfolioData.DocOf(a)), failing)).1 == a
  {
  }

  /** `handleResetToOriginal`. It copies the pre-reset `data.projects` into the
      local list, but the first effect then overwrites it with the baseline. */
  function HandleResetToOriginal(baseline: Portfolio, p: Page, confirmed: bool): (r: Page)
    requires !p.store.isLoading
    ensures !confirmed ==> r == p
    ensures confirmed ==>
      && r.store.data == baseline && r.local == baseline.projects && !r.hasChanges && Consistent(r)
      && (forall k :: k in PortfolioData.SectionKeys ==> k !in r.storage)
      && r.message == Some(Message(InfoMessage, ResetText))
  {
    if !confirmed then p
    else
      var c := PortfolioData.ClearAllData(baseline, p.store, p.storage);
      var storedChanged := p.store.data.projects != baseline.projects;
      Settle(Page(c.0, c.1, p.store.data.projects, p.hasChanges, Some(Message(InfoMessage, ResetText))),
        true, storedChanged, false)
  }

  /** The statistics card. */
  datatype Statistics = Statistics(total: nat, completed: nat, inProgress: nat, featured: nat)

  predicate IsCompleted(q: Project) { q.status == Completed }
  predicate IsInProgress(q: Project) { q.status == InProgress }
  predicate IsPlanned(q: Project) { q.status == Planned }
  predicate IsFeatured(q: Project) { q.featured }

  /** The counts are the lengths of the filtered lists, so each agrees with
      a plain count of the matching projects. */
  function Statistic(local: seq<Project>): (r: Statistics)
    ensures r.total == |local|
    ensures r.completed == Count(local, IsCompleted)
    ensures r.inProgress == Count(local, IsInProgress)
    ensures r.featured == Count(local, IsFeatured)
  {
    CountIsFilterLength(local, IsCompleted);
    CountIsFilterLength(local, IsInProgress);
    CountIsFilterLength(local, IsFeatured);
    Statistics(|local|, |Filter(local, IsCompleted)|, |Filter(local, IsInProgress)|, |Filter(local, IsFeatured)|)
  }

  /** Every project has exactly one of the three statuses. */
  lemma {:induction false} StatusesPartition(local: seq<Project>)
    ensures Count(local, IsCompleted) + Count(local, IsInProgress) + Count(local, IsPlanned) == |local|
  {
    if local != [] {
      StatusesPartition(local[1..]);
    }
  }

  /** The completed and in-progress counts, together with the planned
      projects, account for every project; neither they nor the featured
      count exceed the total. */
  lemma {:induction false} StatisticsPartition(local: seq<Project>)
    ensures var s := Statistic(local);
      s.completed + s.inProgress + |Filter(local, IsPlanned)| == s.total
      && s.featured <= s.total
  {
    StatusesPartition(local);
    CountIsFilterLength(local, IsPlanned);
    CountIsFilterLength(local, IsFeatured);
  }
}
