# Portfolio site core, modelled in Dafny

A model of the state logic of a local-first personal portfolio website (a
Next.js/React application). The site shows a bundled portfolio aggregate:
personal information, contact details, projects, skills, experience and
education. A browser-storage overlay customises that aggregate, and an
admin area edits it. The model covers the following:

- **`PortfolioData`** (`portfolio_data.dfy`): the data store hook.
  - Loading the six storage keys over the baseline.
  - The six `updateX` writers, `clearAllData`, `exportAllData` and `importAllData`, with their error paths.
  - The invariant `Persisted`: the data agrees with what a reload would rebuild.
- **`LocalStorage`** (`local_storage.dfy`): browser storage as a map.
  - A write can throw for a chosen set of keys.
  - The JSON text of each section is abstracted to a typed document.
- **`Types`** (`types.dfy`): the records and tag enumerations of the aggregate.
- **`ProjectManager`** (`project_manager.dfy`): the project list editor.
  - Add, Edit, field edits, Save, Delete and Cancel.
  - Decoding comma-separated list inputs.
- **`AdminPage`** (`admin_page.dfy`): the storage-backed admin page.
  - A local copy of the projects, with an unsaved-changes flag kept by two effects.
  - Save, import, export, reset, and the statistics card.
- **`LegacyAdminPage`** (`legacy_admin_page.dfy`): the earlier admin page, which compares against the bundled list.
- **`PersonalInfoManager`** (`personal_info_manager.dfy`): the personal and contact form draft.
- **`ProjectsPage`** (`projects_page.dfy`): the category, status and search filter, and the filter buttons.
- **`HomePage`** (`home_page.dfy`): the featured-projects strip and the statistics row.
- **`SkillsSection`** (`skills_section.dfy`): grouping by category in first-seen order, the stable sort by proficiency, and the star row.
- **`AdminAccess`** (`admin_access.dfy`): the Ctrl/Cmd+Shift+A shortcut, the typed "admin" sequence and its clear-timers.
- **`FirstTimeSetup`** (`first_time_setup.dfy`): the first-visit dialog gate and its three pages.
- **`SetupWizard`** (`setup_wizard.dfy`): the four-step setup wizard. It is not mounted by any page of the site.
- **`ContactPage`** (`contact_page.dfy`): the message form, the contact methods and the social links.

`Wrappers`, `Seqs` and `Text` hold `Option` and the JavaScript built-ins the
code relies on:

- `filter` and `some` as `Seqs.Filter`;
- `toLowerCase`, `includes`, `split`, `trim`, `join` and `parseInt` in `Text`.

Effects are explicit steps. A React effect runs when a dependency changes
identity, and the model passes that as a flag. Structural comparison with
`JSON.stringify` is equality of values. Browser storage, the clock and the
user's `confirm` answer are parameters. Every `localStorage.setItem` can
throw: the keys in a `failing` set stand for a full quota or disabled
storage.

## Model

| member | source | states |
|---|---|---|
| LocalStorage.SetItem | src/hooks/usePortfolioData.ts:54 | a write either throws (key in `failing`, nothing written) or stores the value under its key and leaves every other key as it was |
| LocalStorage.RemoveItem | src/hooks/usePortfolioData.ts:108-113 | removal deletes exactly the one key |
| Types.ParseCategory | src/types/portfolio.ts:10 | a string names a project category iff it is one of the five literals, and the parsed category prints back as that string |
| Types.CategoryNamesRoundTrip | src/types/portfolio.ts:10 | every category reads back as itself and no two categories share a literal |
| Types.ParseStatus | src/types/portfolio.ts:12 | a string names a status iff it is one of the three literals, and the parsed status prints back as it |
| Types.StatusNamesRoundTrip | src/types/portfolio.ts:12 | every status reads back as itself and the literals are distinct |
| PortfolioData.KeysAreDistinct | src/hooks/usePortfolioData.ts:15-20 | the six sections use six different storage keys, and those are exactly the section keys |
| PortfolioData.LoadData | src/hooks/usePortfolioData.ts:12-50 | a present stored collection replaces the baseline's, a present record is shallow-merged over it, an absent or empty key keeps the baseline, and one unparsable value makes the whole result the baseline |
| PortfolioData.Mount | src/hooks/usePortfolioData.ts:9-10 | the first render exposes the baseline and is loading |
| PortfolioData.Load | src/hooks/usePortfolioData.ts:12-50 | after the load effect, loading is over whatever happened, and the data is persisted when every stored value parses |
| PortfolioData.LoadIsPersisted | src/hooks/usePortfolioData.ts:22-43 | what the load builds is what a second load would build again |
| PortfolioData.Refill | src/hooks/usePortfolioData.ts:30-32 | a reloaded contact keeps its email, location and set optional fields and takes missing ones from the baseline |
| PortfolioData.RefillKeepsContact | src/hooks/usePortfolioData.ts:30-32 | a contact that sets every optional field the baseline sets survives a reload unchanged |
| PortfolioData.RefillRestoresBaselinePhone | src/hooks/usePortfolioData.ts:30-32 | a phone removed from the contact comes back from the baseline after reload |
| PortfolioData.RefillIdempotent | src/hooks/usePortfolioData.ts:30-32 | reloading twice is reloading once |
| PortfolioData.MergeFullPersonalInfo | src/hooks/usePortfolioData.ts:27-29 | merging a complete stored personal-info record yields that record |
| PortfolioData.Write | src/hooks/usePortfolioData.ts:52-59 | one update either throws and changes nothing or stores the document and sets the data; only its key changes |
| PortfolioData.UpdateProjects | src/hooks/usePortfolioData.ts:52-59 | on success the projects and their key are replaced, all else kept; on a throw nothing changes; persistence is preserved |
| PortfolioData.UpdatePersonalInfo | src/hooks/usePortfolioData.ts:61-68 | the same for personal info |
| PortfolioData.UpdateContact | src/hooks/usePortfolioData.ts:70-77 | the same for the contact record |
| PortfolioData.UpdateSkills | src/hooks/usePortfolioData.ts:79-86 | the same for skills |
| PortfolioData.UpdateExperience | src/hooks/usePortfolioData.ts:88-95 | the same for experience |
| PortfolioData.UpdateEducation | src/hooks/usePortfolioData.ts:97-104 | the same for education |
| PortfolioData.ClearAllData | src/hooks/usePortfolioData.ts:106-118 | the six section keys are gone, every other key is untouched, the data is the baseline and a reload gives the baseline |
| PortfolioData.FirstFailing | src/hooks/usePortfolioData.ts:125-131 | the import's writes succeed up to the first key that throws |
| PortfolioData.WriteInOrder | src/hooks/usePortfolioData.ts:125-131 | the writes before the first throwing one are in storage, no other key changes, and the run succeeds iff no write throws |
| PortfolioData.ImportWritesKeys | src/hooks/usePortfolioData.ts:126-131 | the import writes each of the six section keys exactly once |
| PortfolioData.ImportAllData | src/hooks/usePortfolioData.ts:124-137 | the import returns iff no section key throws; then the data is the imported aggregate and persisted; on a throw the data is unchanged but earlier writes remain |
| PortfolioData.AggregateOf | src/hooks/usePortfolioData.ts:124 | a document with every section present is exactly an aggregate |
| PortfolioData.DocWrites | src/hooks/usePortfolioData.ts:126-131 | for a complete document the writes are the aggregate's writes; an absent section is written as the text "undefined" |
| PortfolioData.DocWritesKeys | src/hooks/usePortfolioData.ts:126-131 | a document's import writes each of the six section keys exactly once, whichever sections it holds |
| PortfolioData.WithSections | src/hooks/usePortfolioData.ts:132 | the present sections replace the held ones; a complete document yields its aggregate |
| PortfolioData.ImportDocument | src/hooks/usePortfolioData.ts:124-137 | importing any parsed document returns iff no section key throws; then storage holds every write and the present sections are in the data; on a throw the data is unchanged and only the writes before the failing key remain |
| PortfolioData.CompleteDocumentImports | src/hooks/usePortfolioData.ts:124-137 | a document with every section imports exactly like the aggregate it holds |
| PortfolioData.UndefinedWrite | src/hooks/usePortfolioData.ts:126-131 | a document missing a section writes "undefined" under some section key |
| PortfolioData.UndefinedSectionBreaksLoad | src/hooks/usePortfolioData.ts:24-46 | a section key holding "undefined" is truthy but does not parse, so the load cannot take the stored values |
| PortfolioData.IncompleteImportReloadsBaseline | src/hooks/usePortfolioData.ts:12-50 | after a successful import of a document missing a section, the next load falls back to the bundled data in full |
| PortfolioData.ImportedIsPersisted | src/hooks/usePortfolioData.ts:124-132 | storage holding the six imported documents reloads as the imported aggregate |
| PortfolioData.ExportAfterImport | src/hooks/usePortfolioData.ts:120-132 | exporting after a successful import returns exactly the imported aggregate |
| PortfolioData.ReloadAfterImport | src/hooks/usePortfolioData.ts:12-50 | a reload after a successful import rebuilds the imported aggregate |
| PortfolioData.PartialImportDiverges | src/hooks/usePortfolioData.ts:124-137 | an import that throws at the second key leaves stored projects that disagree with the shown data |
| ProjectManager.Initial | src/components/project-manager.tsx:15-17 | the editor starts in the list view with no draft |
| ProjectManager.HandleEdit | src/components/project-manager.tsx:19-23 | Edit opens the form on the project, remembering which project it edits |
| ProjectManager.HandleAdd | src/components/project-manager.tsx:25-42 | Add opens a blank draft with a clock-derived id, category web, status planned and empty lists |
| ProjectManager.HandleCancel | src/components/project-manager.tsx:87-91 | Cancel returns to the list and commits nothing |
| ProjectManager.UpdateFormData | src/components/project-manager.tsx:93-95 | a field edit changes only the field it names |
| ProjectManager.DecodeList | src/components/project-manager.tsx:49-60 | typed list text is split on commas into trimmed comma-free items (one more than the commas), arrays pass through, absent lists are empty |
| ProjectManager.ProjectOfDraftOf | src/components/project-manager.tsx:47-61 | a project loaded by Edit and saved untouched is the same project |
| ProjectManager.ReplaceById | src/components/project-manager.tsx:66-68 | replacing by id keeps the length and changes exactly the positions carrying the id |
| ProjectManager.HandleSave | src/components/project-manager.tsx:44-78 | an empty title or description does nothing; otherwise an edit replaces the projects with its id, an add appends, and the editor closes |
| ProjectManager.HandleDelete | src/components/project-manager.tsx:80-85 | a confirmed delete keeps exactly the projects without the id, in number the total minus those carrying it |
| ProjectManager.CountComplement | src/components/project-manager.tsx:82 | projects with and without an id together make up the list |
| ProjectManager.DeleteKeepsOrder | src/components/project-manager.tsx:82 | deleting keeps the remaining projects in order |
| ProjectManager.DeleteUniqueRemovesOne | src/components/project-manager.tsx:82 | with unique ids, deleting a present id removes exactly one project |
| ProjectManager.CountSingle | src/components/project-manager.tsx:82 | an id held by one project only is counted once |
| ProjectManager.CountNone | src/components/project-manager.tsx:82 | an id held by no project is counted zero times |
| ProjectManager.AddThenSave | src/components/project-manager.tsx:25-78 | Add, type a title and description, Save appends one project carrying them after the existing list |
| ProjectManager.EditThenSaveUnchanged | src/components/project-manager.tsx:19-78 | opening a project and saving it untouched leaves a list with no other project of that id unchanged |
| ProjectManager.RetypedTechnologiesRoundTrip | src/components/project-manager.tsx:212-213 | retyping the technologies exactly as displayed (`join(', ')`) saves the same project |
| ProjectManager.TypedTechnologiesDraft | src/components/project-manager.tsx:213 | typing into the technologies input replaces that list by the typed text |
| ProjectManager.DecodeDisplayedList | src/components/project-manager.tsx:212 | decoding the displayed join of a non-empty list of trimmed comma-free items gives the list back |
| Text.SplitTrimOfJoin | src/components/project-manager.tsx:50 | splitting a `", "`-join on commas and trimming gives the items back |
| Text.SplitTrimOfEmpty | src/components/project-manager.tsx:50 | clearing a list input saves one empty item, not an empty list |
| Text.JoinSplit | src/components/project-manager.tsx:50 | joining the pieces of a split with its separator restores the text |
| Text.Includes | src/app/projects/page.tsx:34-36 | `includes` holds iff the needle occurs at some position |
| Text.LowerIdempotent | src/app/projects/page.tsx:34-36 | lower-casing twice is lower-casing once |
| Text.ParseInt | src/components/personal-info-manager.tsx:126 | `parseInt` is NaN iff no digit follows the optional whitespace and sign |
| Text.ParseIntOfDecimal | src/components/personal-info-manager.tsx:126 | a decimal numeral parses to its value |
| AdminPage.Settle | src/app/admin/page-new.tsx:27-37 | after any change of a dependency, once loading is over, the flag says whether local and stored lists differ; a reload or a stored-list change copies the stored list |
| AdminPage.Mount | src/app/admin/page-new.tsx:22-37 | the page starts loading with an empty local list |
| AdminPage.Load | src/app/admin/page-new.tsx:27-31 | when loading ends the local list is the stored one and there are no changes |
| AdminPage.HandleProjectsUpdate | src/app/admin/page-new.tsx:44-46 | an editor update sets the local list and the flag is on iff it differs from the stored list |
| AdminPage.HandleSaveChanges | src/app/admin/page-new.tsx:91-104 | as written: with changes, Save clears the flag and shows success; when the write went through only the projects change, in the data and in storage; when it throws, data and storage are untouched |
| AdminPage.SaveFailureReportsSuccess | src/app/admin/page-new.tsx:91-104 | a failing write still reports success and clears the flag while storage and data keep the old list |
| AdminPage.HandleSaveChangesReported | src/app/admin/page-new.tsx:91-104 | corrected Save: success is shown iff the write went through, a failure keeps the flag and the old state, and consistency is preserved |
| AdminPage.HandleImportData | src/app/admin/page-new.tsx:67-89 | unparsable and projects-less files only show their errors; any file with a projects array is imported: its sections go into the data, its projects into the local list, with no changes; a file missing other sections leaves storage that reloads as the bundled data; a storage throw shows the parse error and keeps the page; consistency is preserved |
| AdminPage.ImportedPage | src/app/admin/page-new.tsx:74-77 | a successful import shows the document's sections and projects as saved; a throw leaves store and local list alone |
| AdminPage.ProjectsOnlyImportIsLost | src/app/admin/page-new.tsx:67-89 | a file holding only a projects array is reported imported and shown, yet the next visit shows the bundled projects |
| AdminPage.HandleExportData | src/app/admin/page-new.tsx:48-65 | the exported document is the store's data and the success banner is shown |
| AdminPage.ExportAfterImport | src/app/admin/page-new.tsx:48-89 | exporting right after an accepted import downloads the imported aggregate |
| AdminPage.HandleResetToOriginal | src/app/admin/page-new.tsx:106-112 | a confirmed reset clears the section keys, shows the baseline with no changes and the info banner; declining changes nothing |
| AdminPage.Statistic | src/app/admin/page-new.tsx:294-314 | each count equals an independent count of the matching projects |
| AdminPage.StatisticsPartition | src/app/admin/page-new.tsx:294-314 | completed, in-progress and planned counts add up to the total, and the featured count does not exceed it |
| LegacyAdminPage.Mount | src/app/admin/page.tsx:13-20 | the page starts on the bundled projects with no changes |
| LegacyAdminPage.SetProjects | src/app/admin/page.tsx:16-24 | after an edit the flag is on iff the list differs from the bundled one |
| LegacyAdminPage.HandleExportData | src/app/admin/page.tsx:26-30 | the export is the bundled aggregate with only the projects replaced |
| LegacyAdminPage.HandleImportData | src/app/admin/page.tsx:44-63 | only a file with a projects array replaces the list |
| LegacyAdminPage.HandleSaveChanges | src/app/admin/page.tsx:65-75 | a save writes the list under the projects key, leaves every other key as it was and clears the flag, or on a throw leaves everything as it was |
| LegacyAdminPage.SavedEditDisablesSave | src/app/admin/page.tsx:65-75 | after a successful save the button is disabled although the list still differs from the bundled one |
| LegacyAdminPage.SavedListIsLoaded | src/app/admin/page.tsx:69 | the saved list is what the data store loads on the next visit |
| PersonalInfoManager.Init | src/components/personal-info-manager.tsx:16-20 | the draft starts as copies of the props, not editing |
| PersonalInfoManager.EnterEdit | src/components/personal-info-manager.tsx:266 | Edit Info shows the current draft without re-seeding it |
| PersonalInfoManager.UpdatePersonalInfo | src/components/personal-info-manager.tsx:35-40 | editing a personal field sets it and leaves the other fields and the contact alone |
| PersonalInfoManager.YearsFromInput | src/components/personal-info-manager.tsx:126 | the years input stores the parsed number, or 0 when it parses to NaN or 0 |
| PersonalInfoManager.YearsOfNumeral | src/components/personal-info-manager.tsx:126 | a typed numeral is stored as its value |
| PersonalInfoManager.YearsOfEmptyInput | src/components/personal-info-manager.tsx:126 | an empty input stores 0 |
| PersonalInfoManager.UpdateYears | src/components/personal-info-manager.tsx:126 | the years edit changes only the years field |
| PersonalInfoManager.UpdateContact | src/components/personal-info-manager.tsx:42-47 | editing a contact field sets it (present even when emptied) and leaves other fields, Instagram and personal info alone |
| PersonalInfoManager.HandleSave | src/components/personal-info-manager.tsx:22-25 | Save hands the draft to the parent and stops editing |
| PersonalInfoManager.HandleCancel | src/components/personal-info-manager.tsx:27-33 | Cancel re-seeds the draft from the props and stops editing |
| PersonalInfoManager.EditsKeepInstagram | src/components/personal-info-manager.tsx:166-248 | no sequence of form edits changes the Instagram handle, which has no input |
| PersonalInfoManager.CancelDiscardsEdits | src/components/personal-info-manager.tsx:27-33 | whatever was typed, Cancel then Edit shows the props again |
| ProjectsPage.FilterProjects | src/app/projects/page.tsx:30-39 | the shown projects are, in list order, exactly those matching category, status and search, each as many times as it occurs in the list |
| ProjectsPage.ClearedShowsAll | src/app/projects/page.tsx:150-154 | after Clear Filters every project is shown, in order |
| ProjectsPage.LowerSlice | src/app/projects/page.tsx:34 | lower-casing commutes with taking a slice |
| ProjectsPage.OccursAfterLower | src/app/projects/page.tsx:34 | an occurrence stays an occurrence after lower-casing both sides |
| ProjectsPage.TitlePieceFindsProject | src/app/projects/page.tsx:33-34 | searching for any piece of a title finds the project |
| ProjectsPage.SearchIgnoresCase | src/app/projects/page.tsx:33-36 | lower-casing the search term does not change which projects match |
| ProjectsPage.CategoryNarrows | src/app/projects/page.tsx:31 | choosing a category only removes projects from the "all" view |
| ProjectsPage.CategoryOptions | src/app/projects/page.tsx:27 | the category buttons are "all" followed by each present category exactly once, in order of first appearance in the list |
| ProjectsPage.StatusOptions | src/app/projects/page.tsx:28 | the status buttons are "all" followed by each present status exactly once, in order of first appearance in the list |
| ProjectsPage.OfferedCategoryIsNonEmpty | src/app/projects/page.tsx:27-39 | every offered category shows at least the project it came from |
| HomePage.FeaturedProjects | src/app/page.tsx:25 | the strip holds min(3, featured count) featured projects of the list, in list order |
| HomePage.FeaturedIgnoresLaterProjects | src/app/page.tsx:25 | once three featured projects appear, later projects do not change the strip |
| HomePage.NonFeaturedIgnored | src/app/page.tsx:25 | a non-featured project never affects the strip, wherever it sits |
| HomePage.Stats | src/app/page.tsx:28-33 | four statistics: the years of experience, the number of completed projects (counted independently of the filter), 25 clients and an infinite coffee count |
| HomePage.CompletedStatBounded | src/app/page.tsx:30 | the completed figure is at most the number of projects, and equals it exactly when every project is completed |
| SkillsSection.GroupByCategory | src/components/skills-section.tsx:13-19 | each group holds exactly its category's skills in list order, groups are non-empty with distinct categories covering the skills, in order of first appearance |
| SkillsSection.AddSkillHoldsPrefix | src/components/skills-section.tsx:14-17 | one reduce step keeps every group equal to its category's skills seen so far |
| SkillsSection.AddSkillKeepsOrder | src/components/skills-section.tsx:14-15 | a new group opens only for a category not seen before, keeping first-appearance order |
| SkillsSection.NewCategory | src/components/skills-section.tsx:14-15 | a category seen for the first time is appended after all earlier ones, with no duplicate |
| SkillsSection.NewCategoryHasNoSkills | src/components/skills-section.tsx:14 | a category without a group has no skill among those seen |
| SkillsSection.Insert | src/components/skills-section.tsx:81 | insertion into a descending list keeps it descending and adds exactly the one skill |
| SkillsSection.SortByProficiency | src/components/skills-section.tsx:80-81 | the sort is a permutation in descending proficiency |
| SkillsSection.InsertAtLevel | src/components/skills-section.tsx:81 | insertion places a skill after every skill of its own level |
| SkillsSection.SortIsStable | src/components/skills-section.tsx:80-81 | at each proficiency level the skills keep their original order |
| SkillsSection.StarsShowProficiency | src/components/skills-section.tsx:39-51 | of five stars, exactly the first `proficiency` are filled |
| SkillsSection.FilledFrom | src/components/skills-section.tsx:45 | from position i on, the filled stars number proficiency minus i (or none) |
| SkillsSection.YearsUnit | src/components/skills-section.tsx:91 | the unit is "year" exactly for one year |
| AdminAccess.LastN | src/components/admin-access.tsx:27 | `slice(-5)` keeps the last five keys, or all of them |
| AdminAccess.ConcatSnoc | src/components/admin-access.tsx:30 | joining keys with one more appended is the old join followed by the key |
| AdminAccess.HandleKeyDown | src/components/admin-access.tsx:15-37 | the shortcut opens the prompt and nothing else; a key without a letter changes nothing; the kept sequence never exceeds five keys |
| AdminAccess.RecordedKeyIsLast | src/components/admin-access.tsx:24-35 | a recorded key either completes "admin" (prompt open, sequence emptied) or becomes the last of the kept keys |
| AdminAccess.LetterIsRecorded | src/components/admin-access.tsx:24-25 | a plain lower-case letter is recorded as itself |
| AdminAccess.StepExtends | src/components/admin-access.tsx:26-35 | a letter other than "n" extends the typed suffix without opening the prompt |
| AdminAccess.FinalKeyOpens | src/components/admin-access.tsx:27-32 | "n" after "a", "d", "m", "i" opens the prompt |
| AdminAccess.FireDue | src/components/admin-access.tsx:39-41 | any timer due by now empties the sequence and is removed; with none due nothing changes |
| AdminAccess.PressAsWritten | src/components/admin-access.tsx:38-41 | as written, every recorded key adds its own two-second timer to those pending |
| AdminAccess.PressAsWrittenExtends | src/components/admin-access.tsx:38-41 | as written, a letter typed with no timer due adds one timer and leaves the prompt alone |
| AdminAccess.DueTimerDropsPrefix | src/components/admin-access.tsx:39-41 | once a timer is due the typed prefix is gone, so a final "n" does not open the prompt |
| AdminAccess.AsWrittenLetter | src/components/admin-access.tsx:38-41 | as written, a letter typed before the first pending timer is due keeps the prompt closed and that timer first |
| AdminAccess.AsWrittenSoFar | src/components/admin-access.tsx:38-41 | as written, the first four letters typed within two seconds of the first leave the prompt closed and the first key's timer pending and first |
| AdminAccess.SlowSecretMissesPrompt | src/components/admin-access.tsx:38-41 | as written, "admin" whose first four keys come within two seconds of the first and whose last comes two seconds or more after it never opens the prompt, however short each pause |
| AdminAccess.SteadyTypingMissesPrompt | src/components/admin-access.tsx:38-41 | as written, "admin" typed at 600 ms per key does not open the prompt |
| AdminAccess.Press | src/components/admin-access.tsx:38-41 | corrected: each recorded key restarts the single clear-timer |
| AdminAccess.PressExtends | src/components/admin-access.tsx:38-41 | corrected: a letter other than "n" extends the suffix and restarts the timer |
| AdminAccess.SecretTypedSoFar | src/components/admin-access.tsx:23-41 | corrected: after the first letters of "admin" typed less than two seconds apart, the next key finds them as the typed suffix |
| AdminAccess.TypingSecretOpensPrompt | src/components/admin-access.tsx:23-41 | corrected: "admin" typed with pauses under two seconds opens the prompt from any state |
| AdminAccess.SteadyTypingOpensPrompt | src/components/admin-access.tsx:38-41 | corrected: the same 600 ms typing opens the prompt |
| AdminAccess.HandleAdminAccess | src/components/admin-access.tsx:49-52 | Open Admin Panel goes to /admin and hides the prompt |
| AdminAccess.HidePrompt | src/components/admin-access.tsx:66 | closing only hides the prompt |
| FirstTimeSetup.Mount | src/components/first-time-setup.tsx:14-22 | the dialog opens iff neither the visited nor the customized flag is stored |
| FirstTimeSetup.CurrentTitle | src/components/first-time-setup.tsx:115 | a step in range names one of the three pages |
| FirstTimeSetup.HandleSkip | src/components/first-time-setup.tsx:30-33 | Skip stores the visited flag and closes the dialog, no other key changes; a throwing write leaves all as it was |
| FirstTimeSetup.HandleComplete | src/components/first-time-setup.tsx:24-28 | Complete does the same and navigates to /admin |
| FirstTimeSetup.FinishedSetupStaysClosed | src/components/first-time-setup.tsx:19-31 | after Skip or Complete succeeded, a later mount keeps the dialog closed |
| FirstTimeSetup.ResetKeepsSetupClosed | src/components/first-time-setup.tsx:16-19 | resetting the portfolio data does not bring the dialog back |
| FirstTimeSetup.Buttons | src/components/first-time-setup.tsx:140-169 | Previous shows only past page 1, Next only before page 3, Open Admin Panel only on page 3, none while closed |
| FirstTimeSetup.Click | src/components/first-time-setup.tsx:142-169 | a button not on screen cannot change anything |
| FirstTimeSetup.StepStaysInRange | src/components/first-time-setup.tsx:142-169 | any clicks keep the page within 1..3 |
| FirstTimeSetup.ClosedDialogIgnoresClicks | src/components/first-time-setup.tsx:35 | once closed, no click changes state or storage |
| FirstTimeSetup.TwoNextsReachComplete | src/components/first-time-setup.tsx:37-169 | two Nexts from a fresh mount reach the last page and its Open Admin Panel button |
| SetupWizard.NextStep | src/components/setup-wizard.tsx:43-47 | Next moves one step forward and is a no-op on the last step |
| SetupWizard.PrevStep | src/components/setup-wizard.tsx:49-53 | Previous moves one step back and is a no-op on the first step |
| SetupWizard.PrevUndoesNext | src/components/setup-wizard.tsx:43-53 | Previous undoes Next wherever Next moves, and the reverse |
| SetupWizard.UpdatePersonalInfo | src/components/setup-wizard.tsx:55-60 | a personal update overwrites exactly the supplied fields |
| SetupWizard.UpdateContact | src/components/setup-wizard.tsx:62-67 | a contact update overwrites exactly the supplied fields |
| SetupWizard.PersonalUpdatesCompose | src/components/setup-wizard.tsx:55-60 | two updates equal one merged update, and repeating one is idempotent |
| SetupWizard.ContactUpdatesCompose | src/components/setup-wizard.tsx:62-67 | the same for contact updates |
| SetupWizard.HandleComplete | src/components/setup-wizard.tsx:69-79 | the records pass through and an absent collection becomes empty |
| SetupWizard.StepStaysInRange | src/components/setup-wizard.tsx:15-53 | any actions keep the step within 0..3 |
| SetupWizard.RunKeepsCollections | src/components/setup-wizard.tsx:55-67 | no action touches the draft's collections |
| SetupWizard.CompletedPortfolioIsEmpty | src/components/setup-wizard.tsx:16-34 | however the wizard was used, completing it gives a portfolio with no projects, skills, experience or education |
| SetupWizard.CompleteAtOnce | src/components/setup-wizard.tsx:16-34 | completing without edits gives blank records |
| SetupWizard.ControlsOf | src/components/setup-wizard.tsx:340-380 | the navigation row shows only before step 3, Previous only past step 0, Complete only on step 3 |
| SetupWizard.VisibleButtonsMove | src/components/setup-wizard.tsx:362-380 | exactly one of Next and Complete shows; a shown Next or Previous always moves; Finish leads to Complete |
| SetupWizard.ThreeNextsComplete | src/components/setup-wizard.tsx:340-380 | three Nexts from the start reach the Complete step |
| ContactPage.HandleChange | src/app/contact/page.tsx:43-48 | a change sets the named field only and leaves the flags alone |
| ContactPage.ChangesCommute | src/app/contact/page.tsx:43-48 | a later change of a field overrides an earlier one; changes to different fields commute |
| ContactPage.BeginSubmit | src/app/contact/page.tsx:31-33 | submitting marks the form as sending, which disables the button |
| ContactPage.FinishSubmit | src/app/contact/page.tsx:38-40 | after the delay, sending is over, the thank-you note shows and every field is empty |
| ContactPage.HandleSubmit | src/app/contact/page.tsx:31-41 | a whole submission ends with the button enabled, the note shown and all fields empty |
| ContactPage.SendAnother | src/app/contact/page.tsx:139 | Send Another returns to the form without touching the fields |
| ContactPage.SendAnotherStartsOver | src/app/contact/page.tsx:31-48 | whatever was typed, after a submission Send Another shows the page's initial empty form |
| ContactPage.ChangesKeepFlags | src/app/contact/page.tsx:43-48 | editing alone never submits or blocks the button |
| ContactPage.ContactMethods | src/app/contact/page.tsx:50-72 | as written: three methods, Email, Phone and Location, of which only Location is not a link |
| ContactPage.MissingPhoneLinksToUndefined | src/app/contact/page.tsx:58-63 | with no phone stored, the Phone entry links to `tel:undefined` with empty text |
| ContactPage.ContactMethodsCorrected | src/app/contact/page.tsx:50-72 | corrected: Phone is a link iff a non-empty number is stored, so every link except Email has visible text |
| ContactPage.SocialLinks | src/app/contact/page.tsx:74-93 | one to three links, all with an href, the last always Email; they keep the candidates' order and every candidate with an href is among them |
| ContactPage.FilteredLinks | src/app/contact/page.tsx:74-93 | filtering candidates whose last has an href keeps that one last, keeps the order and loses no linked candidate |
| ContactPage.SocialLinkShown | src/app/contact/page.tsx:74-93 | GitHub and LinkedIn appear iff their handles are stored and non-empty |

## Left out

- Rendering, styling, icons and animations of every page, plus the about page, project cards, footer and layout: these are presentation only.
- The GitHub publishing helper and the portfolio API route: network and filesystem I/O.
- JSON text. A stored value is the typed document it denotes, or `Text`. Well-formed JSON of the wrong shape for its key is treated as not parsing.
- The bundled data file. It is the parameter `baseline`.
- Timers. The five-second banner clear and the two-second delay of the contact form are not modelled: the contact submission is split into its state before and after the delay. The admin-access timers are modelled, with the clock as a parameter `now`.
- AdminAccess.FireDue: a timer whose deadline is at or before the moment of a key press fires before that key is handled. Timers of equal deadline fire together.
- `Date.now()` and `new Date()`. Ids and dates are parameters `now` and `today`.
- `window.confirm`: a boolean parameter. `alert` on the earlier admin page is left out, as are the file download in export and the markdown guides.
- React scheduling. Each effect runs as one synchronous step right after the render that changed its dependencies. A dependency's change of identity is a flag, approximated by structural difference where the code replaces a value.
- AdminPage.HandleSaveChanges, AdminPage.HandleImportData and AdminPage.HandleResetToOriginal require that loading is over. While loading, the page renders only a spinner, so these handlers cannot be reached.
- AdminPage.HandleImportData: a document missing a section makes the source hold `undefined` for that section in memory, which a `Portfolio` cannot represent. In memory the model keeps the section's previous value instead (PortfolioData.WithSections). Storage is modelled exactly: the text "undefined" lands under each missing key, and the next load falls back to the bundled data.
- PortfolioData.ImportDocument: a document is the set of the six sections, each present or absent. Extra fields, and sections of the wrong shape, are not modelled.
- `localStorage.removeItem` is taken never to throw.
- Text.Lower: lower-cases ASCII letters only. Unicode case mapping is not modelled.
- Text.ParseInt: only the decimal form. Hexadecimal prefixes, exponents and non-ASCII digits are not modelled.
- SetupWizard.UpdatePersonalInfo: the years input stores `parseInt(value)` with no fallback, which can be NaN. A NaN is not an `int`, so the model takes the parsed number as given.
- PersonalInfoManager.EnterEdit: the draft is seeded once at mount and on Cancel, not when the props change. The model keeps that behaviour.
- Browser form validation, that is the `required` and `type="email"` attributes of the contact form: the model submits any form.
- The `portfolio-customized` flag is read by the first-visit gate but never written anywhere in the program. The model reads it like any stored key.

## Findings

| source | as written | input that shows it | evidently intended | confidence | as-written member | corrected member |
|---|---|---|---|---|---|---|
| src/app/admin/page-new.tsx:91-104 | `updateProjects` catches its own storage error (src/hooks/usePortfolioData.ts:52-59), so the page's catch never runs: Save shows "Changes saved successfully!" and clears the unsaved flag even when nothing was stored | any Save with changes while the write to `portfolioProjects` throws (storage full) | the error banner, with the unsaved flag kept, when the write fails | medium, not executed | AdminPage.SaveFailureReportsSuccess | AdminPage.HandleSaveChangesReported |
| src/components/admin-access.tsx:38-41 | every letter key starts its own two-second timer and none is cancelled, so the sequence is cleared two seconds after the first key however fast typing continues | "a", "d", "m", "i", "n" at 0, 600, 1200, 1800 and 2400 ms: the first timer fires at 2000 ms and the prompt never opens | clear the keys after two seconds with no typing, as the comment says, so any typing with pauses under two seconds works | medium, not executed | AdminAccess.SteadyTypingMissesPrompt | AdminAccess.TypingSecretOpensPrompt |
| src/app/contact/page.tsx:58-63 | the Phone entry's link is `` `tel:${contact.phone}` ``, which is truthy even when no phone is stored | a contact with no `phone`: the page shows a Phone link to `tel:undefined` with empty text | show the phone as a link only when a number is stored | medium, not executed | ContactPage.MissingPhoneLinksToUndefined | ContactPage.ContactMethodsCorrected |
