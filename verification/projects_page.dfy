/** The public projects page (src/app/projects/page.tsx): category and
    status selectors offered from the loaded projects, a case-insensitive
    search, and the filtered list. */
module ProjectsPage {
  import opened Types
  import opened Text
  import opened Seqs

  /** The page's filter state; "all" selects every category or status. */
  datatype Filters = Filters(category: string, status: string, searchTerm: string)

  const AllOption := "all"

  /** The filter state on mount and after "Clear Filters". */
  const Cleared := Filters(AllOption, AllOption, "")

  /** Some technology of `p` contains `needle` once lower-cased. */
  predicate SomeTechnologyIncludes(p: Project, needle: string)
  {
    exists i :: 0 <= i < |p.technologies| && Includes(Lower(p.technologies[i]), needle)
  }

  /** The search predicate: an empty term, or the lower-cased term inside the
      lower-cased title, description or any technology. */
  predicate MatchesSearch(p: Project, term: string)
  {
    var t := Lower(term);
    term == "" || Includes(Lower(p.title), t) || Includes(Lower(p.description), t)
      || SomeTechnologyIncludes(p, t)
  }

  predicate Matches(f: Filters, p: Project)
  {
    && (f.category == AllOption || CategoryName(p.category) == f.category)
    && (f.status == AllOption || StatusName(p.status) == f.status)
    && MatchesSearch(p, f.searchTerm)
  }

  function Matcher(f: Filters): Project -> bool
  {
    p => Matches(f, p)
  }

  /** `filteredProjects`. */
  function FilterProjects(projects: seq<Project>, f: Filters): (r: seq<Project>)
    ensures IsSubsequence(r, projects)
    ensures forall i :: 0 <= i < |r| ==> Matches(f, r[i])
    ensures forall i :: 0 <= i < |projects| && Matches(f, projects[i]) ==> projects[i] in r
    ensures |r| == Count(projects, Matcher(f))
  {
    FilterIsSubsequence(projects, Matcher(f));
    CountIsFilterLength(projects, Matcher(f));
    Filter(projects, Matcher(f))
  }

  /** With the filters cleared every project is shown, in order. */
  lemma {:induction false} ClearedShowsAll(projects: seq<Project>)
    ensures FilterProjects(projects, Cleared) == projects
  {
    FilterAll(projects, Matcher(Cleared));
  }

  /** Lower-casing commutes with taking a slice. */
  lemma {:induction false} LowerSlice(s: string, i: int, j: int)
    requires 0 <= i <= j <= |s|
    ensures Lower(s[i..j]) == Lower(s)[i..j]
  {
  }

  /** An exact occurrence is also an occurrence after lower-casing both sides. */
  lemma {:induction false} OccursAfterLower(hay: string, needle: string, i: int)
    requires OccursAt(hay, needle, i)
    ensures OccursAt(Lower(hay), Lower(needle), i)
  {
    LowerSlice(hay, i, i + |needle|);
  }

  /** Searching for any piece of a project's title, as written, finds it. */
  lemma {:induction false} TitlePieceFindsProject(p: Project, i: int, j: int)
    requires 0 <= i <= j <= |p.title|
    ensures MatchesSearch(p, p.title[i..j])
  {
    assert OccursAt(p.title, p.title[i..j], i);
    OccursAfterLower(p.title, p.title[i..j], i);
  }

  /** The search ignores the case of the term. */
  lemma {:induction false} SearchIgnoresCase(p: Project, term: string)
    ensures MatchesSearch(p, Lower(term)) <==> MatchesSearch(p, term)
  {
    LowerIdempotent(term);
    assert Lower(term) == "" <==> term == "";
  }

  /** Narrowing the category to a value only removes projects. */
  lemma {:induction false} CategoryNarrows(projects: seq<Project>, f: Filters, c: string)
    requires f.category == AllOption
    ensures forall q :: q in FilterProjects(projects, f.(category := c)) ==> q in FilterProjects(projects, f)
  {
    forall q | q in FilterProjects(projects, f.(category := c))
      ensures q in FilterProjects(projects, f)
    {
      FilterMember(projects, Matcher(f.(category := c)), q);
      FilterMember(projects, Matcher(f), q);
    }
  }

  /** The category names of the projects, in list order. */
  function CategoryNames(projects: seq<Project>): (r: seq<string>)
    ensures |r| == |projects|
    ensures forall i :: 0 <= i < |projects| ==> r[i] == CategoryName(projects[i].category)
  {
    seq(|projects|, i requires 0 <= i < |projects| => CategoryName(projects[i].category))
  }

  function StatusNames(projects: seq<Project>): (r: seq<string>)
    ensures |r| == |projects|
    ensures forall i :: 0 <= i < |projects| ==> r[i] == StatusName(projects[i].status)
  {
    seq(|projects|, i requires 0 <= i < |projects| => StatusName(projects[i].status))
  }

  /** The category buttons: "all", then each category present once, in order
      of first appearance. */
  method CategoryOptions(projects: seq<Project>) returns (r: seq<string>)
    ensures |r| >= 1 && r[0] == AllOption
    ensures NoDuplicates(r[1..])
    ensures forall c :: c in r[1..] <==> exists i :: 0 <= i < |projects| && CategoryName(projects[i].category) == c
    ensures forall i :: 1 <= i < |r| ==> r[i] in CategoryNames(projects)
    ensures forall i, j :: 1 <= i < j < |r| ==> FirstIndex(CategoryNames(projects), r[i]) < FirstIndex(CategoryNames(projects), r[j])
  {
    var names := CategoryNames(projects);
    var unique := UniqueInOrder(names);
    r := [AllOption] + unique;
    assert r[1..] == unique;
  }

  /** The status buttons, built the same way. */
  method StatusOptions(projects: seq<Project>) returns (r: seq<string>)
    ensures |r| >= 1 && r[0] == AllOption
    ensures NoDuplicates(r[1..])
    ensures forall s :: s in r[1..] <==> exists i :: 0 <= i < |projects| && StatusName(projects[i].status) == s
    ensures forall i :: 1 <= i < |r| ==> r[i] in StatusNames(projects)
    ensures forall i, j :: 1 <= i < j < |r| ==> FirstIndex(StatusNames(projects), r[i]) < FirstIndex(StatusNames(projects), r[j])
  {
    var names := StatusNames(projects);
    var unique := UniqueInOrder(names);
    r := [AllOption] + unique;
    assert r[1..] == unique;
  }

  /** No category button offered leads to an empty list on its own: picking
      the category of project `i` shows at least that project. */
  lemma {:induction false} OfferedCategoryIsNonEmpty(projects: seq<Project>, i: int)
    requires 0 <= i < |projects|
    ensures projects[i] in FilterProjects(projects, Cleared.(category := CategoryName(projects[i].category)))
  {
  }
}
