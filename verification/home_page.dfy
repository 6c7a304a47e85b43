/** The home page (src/app/page.tsx): the featured-projects strip and the
    statistics row, computed from the loaded data. */
module HomePage {
  import opened Types
  import opened Seqs

  /** At most this many featured projects are shown. */
  const FeaturedLimit := 3

  /** The fixed "Happy Clients" figure. */
  const HappyClients := 25

  predicate IsFeatured(p: Project)
  {
    p.featured
  }

  function Min(a: int, b: int): int
  {
    if a <= b then a else b
  }

  /** `projects.filter(p => p.featured).slice(0, 3)`. */
  function FeaturedProjects(projects: seq<Project>): (r: seq<Project>)
    ensures |r| == Min(FeaturedLimit, Count(projects, IsFeatured))
    ensures forall i :: 0 <= i < |r| ==> r[i].featured && r[i] in projects
    ensures IsSubsequence(r, projects)
  {
    var all := Filter(projects, IsFeatured);
    CountIsFilterLength(projects, IsFeatured);
    FilterIsSubsequence(projects, IsFeatured);
    var k := Min(FeaturedLimit, |all|);
    SubsequencePrefix(all, projects, k);
    assert forall i :: 0 <= i < k ==> all[i] in projects by {
      forall i | 0 <= i < k {
        FilterMember(projects, IsFeatured, all[i]);
      }
    }
    all[..k]
  }

  /** Once three featured projects have appeared, nothing later in the list
      changes the strip. */
  lemma {:induction false} FeaturedIgnoresLaterProjects(xs: seq<Project>, ys: seq<Project>)
    requires Count(xs, IsFeatured) >= FeaturedLimit
    ensures FeaturedProjects(xs + ys) == FeaturedProjects(xs)
  {
    FilterAppend(xs, ys, IsFeatured);
    CountIsFilterLength(xs, IsFeatured);
    var a := Filter(xs, IsFeatured);
    var b := Filter(ys, IsFeatured);
    assert (a + b)[..FeaturedLimit] == a[..FeaturedLimit];
  }

  /** Non-featured projects never reach the strip, wherever they sit. */
  lemma {:induction false} NonFeaturedIgnored(xs: seq<Project>, p: Project, ys: seq<Project>)
    requires !p.featured
    ensures FeaturedProjects(xs + [p] + ys) == FeaturedProjects(xs + ys)
  {
    var fx := Filter(xs, IsFeatured);
    var fy := Filter(ys, IsFeatured);
    assert Filter([p], IsFeatured) == [];
    FilterAppend(xs, [p], IsFeatured);
    assert Filter(xs + [p], IsFeatured) == fx;
    FilterAppend(xs + [p], ys, IsFeatured);
    FilterAppend(xs, ys, IsFeatured);
    assert Filter(xs + [p] + ys, IsFeatured) == Filter(xs + ys, IsFeatured);
  }

  datatype StatValue = Number(n: int) | Infinite

  datatype Stat = Stat(caption: string, value: StatValue)

  /** A project the completed figure counts. */
  predicate IsCompleted(p: Project)
  {
    p.status == Completed
  }

  /** The statistics row. */
  function Stats(pi: PersonalInfo, projects: seq<Project>): (r: seq<Stat>)
    ensures |r| == 4
    ensures r[0] == Stat("Years Experience", Number(pi.yearsOfExperience))
    ensures r[1] == Stat("Projects Completed", Number(Count(projects, IsCompleted)))
    ensures r[2] == Stat("Happy Clients", Number(HappyClients))
    ensures r[3] == Stat("Cups of Coffee", Infinite)
  {
    CountIsFilterLength(projects, IsCompleted);
    [ Stat("Years Experience", Number(pi.yearsOfExperience)),
      Stat("Projects Completed", Number(|Filter(projects, IsCompleted)|)),
      Stat("Happy Clients", Number(HappyClients)),
      Stat("Cups of Coffee", Infinite) ]
  }

  /** The completed figure never exceeds the number of projects, and
      reaches it exactly when every project is completed. */
  lemma {:induction false} CompletedStatBounded(pi: PersonalInfo, projects: seq<Project>)
    ensures Stats(pi, projects)[1].value.n <= |projects|
    ensures Stats(pi, projects)[1].value.n == |projects| <==> forall p :: p in projects ==> IsCompleted(p)
  {
    CountAllIff(projects, IsCompleted);
  }
}
