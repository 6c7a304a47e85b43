/** The project list editor (src/components/project-manager.tsx): a draft
    that Add or Edit opens, field edits change, and Save commits through the
    `onUpdate` callback, whose argument is the function's second result. */
module ProjectManager {
  import opened Wrappers
  import opened Types
  import opened Text
  import opened Seqs

  /** A list field of the draft: absent, a project's own array, or the
      comma-separated text typed into its input. */
  datatype ListField = Absent | Items(items: seq<string>) | Entered(text: string)

  /** `formData` while editing. Add and Edit both set every required scalar
      field, so only the optional fields and the list fields can be missing. */
  datatype Draft = Draft(
    id: string,
    title: string,
    description: string,
    longDescription: string,
    technologies: ListField,
    image: string,
    images: ListField,
    githubUrl: Option<string>,
    liveUrl: Option<string>,
    category: ProjectCategory,
    featured: bool,
    createdDate: string,
    completedDate: Option<string>,
    status: ProjectStatus,
    challenges: ListField,
    learnings: ListField)

  /** `isEditing`, `editingProject`, and `formData` (`None` for `{}`). */
  datatype Editor = Editor(isEditing: bool, editingProject: Option<Project>, form: Option<Draft>)

  /** The form is shown exactly while a draft is held. */
  predicate WellFormed(e: Editor)
  {
    e.isEditing <==> e.form.Some?
  }

  /** The editor's first render: the list view. */
  function Initial(): (e: Editor)
    ensures WellFormed(e) && !e.isEditing
  {
    Editor(false, None, None)
  }

  /** The draft a project is loaded into by Edit. */
  function DraftOf(p: Project): Draft
  {
    Draft(p.id, p.title, p.description, p.longDescription, Items(p.technologies), p.image,
      Items(p.images), p.githubUrl, p.liveUrl, p.category, p.featured, p.createdDate,
      p.completedDate, p.status, Items(p.challenges), Items(p.learnings))
  }

  /** `handleEdit`. */
  function HandleEdit(p: Project): (e: Editor)
    ensures WellFormed(e) && e.isEditing
    ensures e.editingProject == Some(p)
  {
    Editor(true, Some(p), Some(DraftOf(p)))
  }

  /** `handleAdd`: `now` is `Date.now()` and `today` the date part of the
      current ISO time; nothing makes two ids differ. */
  function HandleAdd(now: nat, today: string): (e: Editor)
    ensures WellFormed(e) && e.isEditing && e.editingProject.None?
    ensures var d := e.form.value;
      && d.id == DecimalString(now) && d.id != ""
      && d.title == "" && d.description == "" && d.longDescription == "" && d.image == ""
      && d.category == Web && d.status == Planned && !d.featured && d.createdDate == today
      && d.technologies == Items([]) && d.images == Items([])
      && d.challenges == Absent && d.learnings == Absent
      && d.githubUrl.None? && d.liveUrl.None? && d.completedDate.None?
  {
    Editor(true, None, Some(Draft(DecimalString(now), "", "", "", Items([]), "", Items([]),
      None, None, Web, false, today, None, Planned, Absent, Absent)))
  }

  /** `handleCancel`: back to the list with an empty draft, committing nothing. */
  function HandleCancel(e: Editor): (r: Editor)
    ensures WellFormed(r) && !r.isEditing && r.editingProject.None?
  {
    Editor(false, None, None)
  }

  /** The edits the form's inputs make through `updateFormData`. */
  datatype FieldEdit =
    | SetTitle(title: string)
    | SetCategory(category: ProjectCategory)
    | SetDescription(description: string)
    | SetLongDescription(longDescription: string)
    | SetImage(image: string)
    | SetStatus(status: ProjectStatus)
    | SetGithubUrl(githubUrl: string)
    | SetLiveUrl(liveUrl: string)
    | SetTechnologies(technologies: string)
    | SetImages(images: string)
    | SetCreatedDate(createdDate: string)
    | SetCompletedDate(completedDate: string)
    | SetFeatured(featured: bool)

  /** The names of the draft's fields. */
  datatype Field =
    | IdField | TitleField | DescriptionField | LongDescriptionField | TechnologiesField
    | ImageField | ImagesField | GithubUrlField | LiveUrlField | CategoryField | FeaturedField
    | CreatedDateField | CompletedDateField | StatusField | ChallengesField | LearningsField

  /** The field an edit writes. */
  function FieldOf(x: FieldEdit): Field
  {
    match x
    case SetTitle(_) => TitleField
    case SetCategory(_) => CategoryField
    case SetDescription(_) => DescriptionField
    case SetLongDescription(_) => LongDescriptionField
    case SetImage(_) => ImageField
    case SetStatus(_) => StatusField
    case SetGithubUrl(_) => GithubUrlField
    case SetLiveUrl(_) => LiveUrlField
    case SetTechnologies(_) => TechnologiesField
    case SetImages(_) => ImagesField
    case SetCreatedDate(_) => CreatedDateField
    case SetCompletedDate(_) => CompletedDateField
    case SetFeatured(_) => FeaturedField
  }

  /** Two drafts agree on field `f`. */
  predicate SameField(a: Draft, b: Draft, f: Field)
  {
    match f
    case IdField => a.id == b.id
    case TitleField => a.title == b.title
    case DescriptionField => a.description == b.description
    case LongDescriptionField => a.longDescription == b.longDescription
    case TechnologiesField => a.technologies == b.technologies
    case ImageField => a.image == b.image
    case ImagesField => a.images == b.images
    case GithubUrlField => a.githubUrl == b.githubUrl
    case LiveUrlField => a.liveUrl == b.liveUrl
    case CategoryField => a.category == b.category
    case FeaturedField => a.featured == b.featured
    case CreatedDateField => a.createdDate == b.createdDate
    case CompletedDateField => a.completedDate == b.completedDate
    case StatusField => a.status == b.status
    case ChallengesField => a.challenges == b.challenges
    case LearningsField => a.learnings == b.learnings
  }

  /** `{ ...prev, [field]: value }`. */
  function ApplyEdit(d: Draft, x: FieldEdit): Draft
  {
    match x
    case SetTitle(v) => d.(title := v)
    case SetCategory(v) => d.(category := v)
    case SetDescription(v) => d.(description := v)
    case SetLongDescription(v) => d.(longDescription := v)
    case SetImage(v) => d.(image := v)
    case SetStatus(v) => d.(status := v)
    case SetGithubUrl(v) => d.(githubUrl := Some(v))
    case SetLiveUrl(v) => d.(liveUrl := Some(v))
    case SetTechnologies(v) => d.(technologies := Entered(v))
    case SetImages(v) => d.(images := Entered(v))
    case SetCreatedDate(v) => d.(createdDate := v)
    case SetCompletedDate(v) => d.(completedDate := Some(v))
    case SetFeatured(v) => d.(featured := v)
  }

  /** An edit of the open form changes only the field it names. The inputs
      exist only while editing. */
  function UpdateFormData(e: Editor, x: FieldEdit): (r: Editor)
    requires WellFormed(e) && e.isEditing
    ensures WellFormed(r) && r.isEditing && r.editingProject == e.editingProject
    ensures forall f :: f != FieldOf(x) ==> SameField(e.form.value, r.form.value, f)
    ensures !SameField(e.form.value, r.form.value, FieldOf(x)) ==> e.form.value != r.form.value
  {
    e.(form := Some(ApplyEdit(e.form.value, x)))
  }

  /** The value a list field is saved as: text is split on commas and each
      piece trimmed, an array passes through, and an absent field is empty. */
  function DecodeList(f: ListField): (r: seq<string>)
    ensures f.Absent? ==> r == []
    ensures f.Items? ==> r == f.items
    ensures f.Entered? ==> |r| == CountChar(f.text, ',') + 1
    ensures f.Entered? ==> forall i :: 0 <= i < |r| ==> IsTrimmed(r[i]) && ',' !in r[i]
  {
    match f
    case Absent => []
    case Items(xs) => xs
    case Entered(t) => SplitTrim(t)
  }

  /** `projectToSave`. */
  function ProjectOf(d: Draft): Project
  {
    Project(d.id, d.title, d.description, d.longDescription, DecodeList(d.technologies), d.image,
      DecodeList(d.images), d.githubUrl, d.liveUrl, d.category, d.featured, d.createdDate,
      d.completedDate, d.status, DecodeList(d.challenges), DecodeList(d.learnings))
  }

  /** A project loaded by Edit and saved untouched is the same project. */
  lemma {:induction false} ProjectOfDraftOf(p: Project)
    ensures ProjectOf(DraftOf(p)) == p
  {
  }

  /** `projects.map(p => p.id === id ? q : p)`. */
  function ReplaceById(ps: seq<Project>, id: string, q: Project): (r: seq<Project>)
    ensures |r| == |ps|
    ensures forall i :: 0 <= i < |ps| && ps[i].id == id ==> r[i] == q
    ensures forall i :: 0 <= i < |ps| && ps[i].id != id ==> r[i] == ps[i]
  {
    if ps == [] then []
    else [if ps[0].id == id then q else ps[0]] + ReplaceById(ps[1..], id, q)
  }

  /** `handleSave`: with an empty title or description nothing happens;
      otherwise the edited project replaces every project with the edited
      id, or a new one is appended, `onUpdate` receives the new list and the
      editor returns to the list view. */
  function HandleSave(e: Editor, projects: seq<Project>): (r: (Editor, Option<seq<Project>>))
    requires WellFormed(e)
    ensures WellFormed(r.0)
    ensures (e.form.None? || e.form.value.title == "" || e.form.value.description == "") ==>
      r == (e, None)
    ensures r.1.Some? ==> !r.0.isEditing && r.0.form.None? && r.0.editingProject.None?
    ensures r.1.Some? && e.editingProject.Some? ==>
      var id := e.editingProject.value.id;
      && |r.1.value| == |projects|
      && (forall i :: 0 <= i < |projects| && projects[i].id != id ==> r.1.value[i] == projects[i])
      && (forall i :: 0 <= i < |projects| && projects[i].id == id ==> r.1.value[i] == ProjectOf(e.form.value))
    ensures r.1.Some? && e.editingProject.None? ==>
      && |r.1.value| == |projects| + 1
      && r.1.value[..|projects|] == projects
      && r.1.value[|projects|] == ProjectOf(e.form.value)
    ensures e.form.Some? && e.form.value.title != "" && e.form.value.description != "" ==> r.1.Some?
  {
    match e.form
    case None => (e, None)
    case Some(d) =>
      if d.title == "" || d.description == "" then (e, None)
      else
        var q := ProjectOf(d);
        var updated := match e.editingProject
          case Some(p) => ReplaceById(projects, p.id, q)
          case None => projects + [q];
        (Editor(false, None, None), Some(updated))
  }

  /** `handleDelete`: when confirmed, `onUpdate` receives the list without the
      projects carrying `id`. */
  function HandleDelete(projects: seq<Project>, id: string, confirmed: bool): (r: Option<seq<Project>>)
    ensures r.Some? <==> confirmed
    ensures r.Some? ==> forall i :: 0 <= i < |r.value| ==> r.value[i].id != id && r.value[i] in projects
    ensures r.Some? ==> forall i :: 0 <= i < |projects| && projects[i].id != id ==> projects[i] in r.value
    ensures r.Some? ==> |r.value| == |projects| - Count(projects, (p: Project) => p.id == id)
  {
    if confirmed then
      var f := (p: Project) => p.id != id;
      var kept := Filter(projects, f);
      CountIsFilterLength(projects, f);
      CountComplement(projects, id);
      assert forall i :: 0 <= i < |kept| ==> kept[i] in projects by {
        forall i | 0 <= i < |kept| {
          FilterMember(projects, f, kept[i]);
        }
      }
      Some(kept)
    else None
  }

  lemma {:induction false} CountComplement(ps: seq<Project>, id: string)
    ensures Count(ps, (p: Project) => p.id != id) + Count(ps, (p: Project) => p.id == id) == |ps|
  {
    if ps != [] {
      CountComplement(ps[1..], id);
    }
  }

  /** Deleting keeps the remaining projects in their original order. */
  lemma {:induction false} DeleteKeepsOrder(projects: seq<Project>, id: string)
    ensures IsSubsequence(HandleDelete(projects, id, true).value, projects)
  {
    FilterIsSubsequence(projects, (p: Project) => p.id != id);
  }

  /** With unique ids, deleting a present id removes exactly one project. */
  lemma {:induction false} DeleteUniqueRemovesOne(projects: seq<Project>, k: nat)
    requires k < |projects|
    requires forall i :: 0 <= i < |projects| && i != k ==> projects[i].id != projects[k].id
    ensures |HandleDelete(projects, projects[k].id, true).value| == |projects| - 1
  {
    CountSingle(projects, k);
  }

  lemma {:induction false} CountSingle(ps: seq<Project>, k: nat)
    requires k < |ps|
    requires forall i :: 0 <= i < |ps| && i != k ==> ps[i].id != ps[k].id
    ensures Count(ps, (p: Project) => p.id == ps[k].id) == 1
  {
    var id := ps[k].id;
    if k == 0 {
      CountNone(ps[1..], id);
    } else {
      CountSingle(ps[1..], k - 1);
      assert ps[1..][k - 1] == ps[k];
    }
  }

  lemma {:induction false} CountNone(ps: seq<Project>, id: string)
    requires forall i :: 0 <= i < |ps| ==> ps[i].id != id
    ensures Count(ps, (p: Project) => p.id == id) == 0
  {
    if ps != [] {
      CountNone(ps[1..], id);
    }
  }

  /** Add, type a title and a description, Save: the list grows by one
      project at the end carrying them and the clock-derived id. */
  lemma {:induction false} AddThenSave(projects: seq<Project>, now: nat, today: string, title: string, description: string)
    requires title != "" && description != ""
    ensures var e := UpdateFormData(UpdateFormData(HandleAdd(now, today), SetTitle(title)), SetDescription(description));
      var r := HandleSave(e, projects);
      && r.1.Some? && |r.1.value| == |projects| + 1 && r.1.value[..|projects|] == projects
      && var q := r.1.value[|projects|];
         q.title == title && q.description == description && q.id == DecimalString(now)
         && q.technologies == [] && q.challenges == [] && q.learnings == [] && q.status == Planned
  {
  }

  /** Opening a project and saving it untouched leaves the list as it was,
      provided no other project shares its id. */
  lemma {:induction false} EditThenSaveUnchanged(projects: seq<Project>, k: nat)
    requires k < |projects|
    requires projects[k].title != "" && projects[k].description != ""
    requires forall i :: 0 <= i < |projects| && projects[i].id == projects[k].id ==> projects[i] == projects[k]
    ensures HandleSave(HandleEdit(projects[k]), projects).1 == Some(projects)
  {
    ProjectOfDraftOf(projects[k]);
    var r := HandleSave(HandleEdit(projects[k]), projects).1.value;
    assert |r| == |projects|;
    forall i | 0 <= i < |projects| ensures r[i] == projects[i] {
    }
    assert r == projects;
  }

  /** Re-entering the technologies exactly as the input displays them
      (`join(', ')`) saves the same list, when it is non-empty and no item
      holds a comma or surrounding whitespace. */
  lemma {:induction false} RetypedTechnologiesRoundTrip(p: Project)
    requires |p.technologies| > 0
    requires forall i :: 0 <= i < |p.technologies| ==> ',' !in p.technologies[i] && IsTrimmed(p.technologies[i])
    ensures var e := UpdateFormData(HandleEdit(p), SetTechnologies(Join(p.technologies, ", ")));
      ProjectOf(e.form.value) == p
  {
    var j := Join(p.technologies, ", ");
    DecodeDisplayedList(p.technologies);
    TypedTechnologiesDraft(p, j);
  }

  lemma {:induction false} TypedTechnologiesDraft(p: Project, t: string)
    ensures UpdateFormData(HandleEdit(p), SetTechnologies(t)).form.value == DraftOf(p).(technologies := Entered(t))
  {
  }

  lemma {:induction false} DecodeDisplayedList(xs: seq<string>)
    requires |xs| > 0
    requires forall i :: 0 <= i < |xs| ==> ',' !in xs[i] && IsTrimmed(xs[i])
    ensures DecodeList(Entered(Join(xs, ", "))) == xs
  {
    SplitTrimOfJoin(xs);
  }
}
