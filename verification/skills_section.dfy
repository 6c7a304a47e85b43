/** The skills section (src/components/skills-section.tsx): skills grouped
    by category in order of first appearance, each group sorted by
    proficiency (highest first, ties in list order), five stars per skill. */
module SkillsSection {
  import opened Types
  import opened Seqs

  datatype Group = Group(category: SkillCategory, skills: seq<Skill>)

  function Categories(skills: seq<Skill>): (r: seq<SkillCategory>)
    ensures |r| == |skills|
    ensures forall i :: 0 <= i < |skills| ==> r[i] == skills[i].category
  {
    seq(|skills|, i requires 0 <= i < |skills| => skills[i].category)
  }

  function InCategory(c: SkillCategory): Skill -> bool
  {
    (s: Skill) => s.category == c
  }

  /** The index of the group for `c`, or `|groups|` when there is none. */
  function FindGroup(groups: seq<Group>, c: SkillCategory): (r: nat)
    ensures r <= |groups|
    ensures r < |groups| ==> groups[r].category == c
    ensures r == |groups| ==> forall i :: 0 <= i < |groups| ==> groups[i].category != c
  {
    if groups == [] then 0
    else if groups[0].category == c then 0
    else 1 + FindGroup(groups[1..], c)
  }

  /** Filtering a sequence extended by one element. */
  lemma {:induction false} FilterSnoc(xs: seq<Skill>, s: Skill, f: Skill -> bool)
    ensures Filter(xs + [s], f) == Filter(xs, f) + (if f(s) then [s] else [])
  {
    FilterAppend(xs, [s], f);
  }

  /** The categories of the groups, in group order. */
  function GroupCategories(groups: seq<Group>): (r: seq<SkillCategory>)
    ensures |r| == |groups|
    ensures forall i :: 0 <= i < |groups| ==> r[i] == groups[i].category
  {
    seq(|groups|, i requires 0 <= i < |groups| => groups[i].category)
  }

  /** Each group holds, in order, the skills of the first `k` of its
      category, and is not empty. */
  predicate GroupsHoldPrefix(groups: seq<Group>, skills: seq<Skill>, k: int)
    requires 0 <= k <= |skills|
  {
    forall i :: 0 <= i < |groups| ==>
      groups[i].skills == Filter(skills[..k], InCategory(groups[i].category)) && groups[i].skills != []
  }

  /** `gc` lists the distinct categories among the first `k` of `cs`, each
      once, in order of first appearance. */
  predicate FirstSeenInOrder(gc: seq<SkillCategory>, cs: seq<SkillCategory>, k: int)
    requires 0 <= k <= |cs|
  {
    && NoDuplicates(gc)
    && (forall j :: 0 <= j < k ==> cs[j] in gc)
    && (forall i :: 0 <= i < |gc| ==> gc[i] in cs && FirstIndex(cs, gc[i]) < k)
    && (forall i, j :: 0 <= i < j < |gc| ==> FirstIndex(cs, gc[i]) < FirstIndex(cs, gc[j]))
  }

  /** The groups' categories are the distinct categories of the first `k`
      skills, in order of first appearance. */
  predicate CategoriesInOrder(groups: seq<Group>, skills: seq<Skill>, k: int)
    requires 0 <= k <= |skills|
  {
    FirstSeenInOrder(GroupCategories(groups), Categories(skills), k)
  }

  /** One step of the `reduce`: append to the skill's group, or open one. */
  function AddSkill(groups: seq<Group>, s: Skill): (r: seq<Group>)
  {
    var at := FindGroup(groups, s.category);
    if at < |groups| then groups[at := Group(s.category, groups[at].skills + [s])]
    else groups + [Group(s.category, [s])]
  }

  lemma {:induction false} AddSkillHoldsPrefix(groups: seq<Group>, skills: seq<Skill>, k: int)
    requires 0 <= k < |skills|
    requires GroupsHoldPrefix(groups, skills, k) && CategoriesInOrder(groups, skills, k)
    ensures GroupsHoldPrefix(AddSkill(groups, skills[k]), skills, k + 1)
  {
    var s := skills[k];
    var at := FindGroup(groups, s.category);
    if at < |groups| {
      AddToExistingGroup(groups, skills, k, at);
    } else {
      NewCategoryHasNoSkills(groups, skills, k);
      AddNewGroup(groups, skills, k);
    }
  }

  /** One group after one more skill is looked at. */
  lemma {:induction false} GroupStep(g: Group, skills: seq<Skill>, k: int)
    requires 0 <= k < |skills|
    requires g.skills == Filter(skills[..k], InCategory(g.category))
    ensures (if skills[k].category == g.category then g.skills + [skills[k]] else g.skills)
      == Filter(skills[..k + 1], InCategory(g.category))
  {
    assert skills[..k + 1] == skills[..k] + [skills[k]];
    FilterSnoc(skills[..k], skills[k], InCategory(g.category));
  }

  lemma {:induction false} AddToExistingGroup(groups: seq<Group>, skills: seq<Skill>, k: int, at: nat)
    requires 0 <= k < |skills|
    requires at == FindGroup(groups, skills[k].category) && at < |groups|
    requires GroupsHoldPrefix(groups, skills, k) && NoDuplicates(GroupCategories(groups))
    ensures GroupsHoldPrefix(AddSkill(groups, skills[k]), skills, k + 1)
  {
    var s := skills[k];
    var r := groups[at := Group(s.category, groups[at].skills + [s])];
    forall i | 0 <= i < |r|
      ensures r[i].skills == Filter(skills[..k + 1], InCategory(r[i].category)) && r[i].skills != []
    {
      var g := groups[i];
      assert g.skills == Filter(skills[..k], InCategory(g.category));
      GroupStep(g, skills, k);
      if i == at {
        assert r[i] == Group(g.category, g.skills + [s]);
      } else {
        assert GroupCategories(groups)[i] != GroupCategories(groups)[at];
        assert r[i] == g;
      }
    }
    assert AddSkill(groups, s) == r;
  }

  lemma {:induction false} AddNewGroup(groups: seq<Group>, skills: seq<Skill>, k: int)
    requires 0 <= k < |skills|
    requires FindGroup(groups, skills[k].category) == |groups|
    requires Filter(skills[..k], InCategory(skills[k].category)) == []
    requires GroupsHoldPrefix(groups, skills, k)
    ensures GroupsHoldPrefix(AddSkill(groups, skills[k]), skills, k + 1)
  {
    var s := skills[k];
    var r := groups + [Group(s.category, [s])];
    forall i | 0 <= i < |r|
      ensures r[i].skills == Filter(skills[..k + 1], InCategory(r[i].category)) && r[i].skills != []
    {
      if i < |groups| {
        assert r[i] == groups[i];
        GroupStep(groups[i], skills, k);
      } else {
        GroupStep(Group(s.category, []), skills, k);
      }
    }
    assert AddSkill(groups, s) == r;
  }

  /** A category with no group yet has no skill among the first `k`. */
  lemma {:induction false} NewCategoryHasNoSkills(groups: seq<Group>, skills: seq<Skill>, k: int)
    requires 0 <= k < |skills|
    requires CategoriesInOrder(groups, skills, k)
    requires FindGroup(groups, skills[k].category) == |groups|
    ensures Filter(skills[..k], InCategory(skills[k].category)) == []
  {
    var gc := GroupCategories(groups);
    forall j | 0 <= j < k
      ensures skills[..k][j].category != skills[k].category
    {
      assert Categories(skills)[j] in gc;
    }
    FilterNone(skills[..k], InCategory(skills[k].category));
  }

  lemma {:induction false} AddSkillKeepsOrder(groups: seq<Group>, skills: seq<Skill>, k: int)
    requires 0 <= k < |skills|
    requires CategoriesInOrder(groups, skills, k)
    ensures CategoriesInOrder(AddSkill(groups, skills[k]), skills, k + 1)
  {
    var s := skills[k];
    var gc := GroupCategories(groups);
    var cs := Categories(skills);
    var at := FindGroup(groups, s.category);
    var r := AddSkill(groups, s);
    if at < |groups| {
      assert GroupCategories(r) == gc;
      assert cs[k] == gc[at];
      SeenCategory(gc, cs, k);
    } else {
      assert GroupCategories(r) == gc + [cs[k]];
      assert cs[k] !in gc;
      NewCategory(gc, cs, k);
    }
  }

  /** A category already grouped leaves the groups' categories as they are. */
  lemma {:induction false} SeenCategory(gc: seq<SkillCategory>, cs: seq<SkillCategory>, k: int)
    requires 0 <= k < |cs|
    requires FirstSeenInOrder(gc, cs, k) && cs[k] in gc
    ensures FirstSeenInOrder(gc, cs, k + 1)
  {
  }

  /** A category seen for the first time is appended after the others. */
  lemma {:induction false} NewCategory(gc: seq<SkillCategory>, cs: seq<SkillCategory>, k: int)
    requires 0 <= k < |cs|
    requires FirstSeenInOrder(gc, cs, k) && cs[k] !in gc
    ensures FirstSeenInOrder(gc + [cs[k]], cs, k + 1)
  {
    forall j | 0 <= j < k
      ensures cs[j] != cs[k]
    {
      assert cs[j] in gc;
    }
    FirstIndexOfNew(cs, k);
    var gc' := gc + [cs[k]];
    forall i | 0 <= i < |gc'|
      ensures gc'[i] in cs && FirstIndex(cs, gc'[i]) < k + 1
    {
      if i < |gc| {
        assert gc'[i] == gc[i];
      }
    }
    forall i, j | 0 <= i < j < |gc'|
      ensures FirstIndex(cs, gc'[i]) < FirstIndex(cs, gc'[j])
    {
      assert gc'[i] == gc[i];
      if j < |gc| {
        assert gc'[j] == gc[j];
      }
    }
  }

  /** The first occurrence of a category not seen before position `k` is `k`. */
  lemma {:induction false} FirstIndexOfNew(cs: seq<SkillCategory>, k: int)
    requires 0 <= k < |cs|
    requires forall j :: 0 <= j < k ==> cs[j] != cs[k]
    ensures FirstIndex(cs, cs[k]) == k
  {
  }

  /** The `reduce` into a record keyed by category. A JavaScript object
      enumerates such keys in insertion order, so the groups come out in
      order of each category's first skill. */
  method GroupByCategory(skills: seq<Skill>) returns (groups: seq<Group>)
    ensures forall i :: 0 <= i < |groups| ==>
      groups[i].skills == Filter(skills, InCategory(groups[i].category)) && groups[i].skills != []
    ensures NoDuplicates(GroupCategories(groups))
    ensures forall c :: c in GroupCategories(groups) <==> c in Categories(skills)
    ensures forall i, j :: 0 <= i < j < |groups| ==>
      FirstIndex(Categories(skills), groups[i].category) < FirstIndex(Categories(skills), groups[j].category)
  {
    groups := [];
    var k := 0;
    while k < |skills|
      invariant 0 <= k <= |skills|
      invariant GroupsHoldPrefix(groups, skills, k)
      invariant CategoriesInOrder(groups, skills, k)
    {
      AddSkillHoldsPrefix(groups, skills, k);
      AddSkillKeepsOrder(groups, skills, k);
      groups := AddSkill(groups, skills[k]);
      k := k + 1;
    }
    assert skills[..k] == skills;
    assert forall c :: c in Categories(skills) ==> c in GroupCategories(groups);
  }

  /** Sorted by proficiency, highest first. */
  predicate SortedDesc(xs: seq<Skill>)
  {
    forall i, j :: 0 <= i < j < |xs| ==> xs[i].proficiency >= xs[j].proficiency
  }

  /** Putting an element at least as proficient as the head in front keeps
      the list sorted. */
  lemma {:induction false} ConsSorted(h: Skill, t: seq<Skill>)
    requires SortedDesc(t)
    requires t == [] || h.proficiency >= t[0].proficiency
    ensures SortedDesc([h] + t)
  {
    var r := [h] + t;
    forall i, j | 0 <= i < j < |r|
      ensures r[i].proficiency >= r[j].proficiency
    {
      assert r[j] == t[j - 1];
      if i == 0 {
        assert t[0].proficiency >= t[j - 1].proficiency;
      } else {
        assert r[i] == t[i - 1];
      }
    }
  }

  lemma {:induction false} SortedTail(s: seq<Skill>)
    requires SortedDesc(s) && s != []
    ensures SortedDesc(s[1..])
  {
    forall i, j | 0 <= i < j < |s[1..]|
      ensures s[1..][i].proficiency >= s[1..][j].proficiency
    {
      assert s[1..][i] == s[i + 1] && s[1..][j] == s[j + 1];
    }
  }

  /** Inserts `x` after every element at least as proficient. */
  function Insert(x: Skill, s: seq<Skill>): (r: seq<Skill>)
    requires SortedDesc(s)
    ensures SortedDesc(r)
    ensures multiset(r) == multiset(s) + multiset{x}
    ensures |r| == |s| + 1
    ensures r[0] == x || (s != [] && r[0] == s[0])
  {
    if s == [] then [x]
    else if s[0].proficiency < x.proficiency then
      ConsSorted(x, s);
      [x] + s
    else
      SortedTail(s);
      var t := Insert(x, s[1..]);
      assert s[0].proficiency >= t[0].proficiency by {
        if t[0] != x {
          assert t[0] == s[1];
        }
      }
      ConsSorted(s[0], t);
      assert s == [s[0]] + s[1..];
      [s[0]] + t
  }

  /** `sort((a, b) => b.proficiency - a.proficiency)`: a stable sort, so the
      insertion sort inserts each element after its equals. */
  function SortByProficiency(xs: seq<Skill>): (r: seq<Skill>)
    ensures SortedDesc(r)
    ensures multiset(r) == multiset(xs)
  {
    if xs == [] then []
    else
      assert xs == xs[..|xs| - 1] + [xs[|xs| - 1]];
      Insert(xs[|xs| - 1], SortByProficiency(xs[..|xs| - 1]))
  }

  function AtLevel(k: int): Skill -> bool
  {
    (s: Skill) => s.proficiency == k
  }

  /** Nothing in a descending list headed below level `k` is at level `k`. */
  lemma {:induction false} NoneAtLevelBelowHead(s: seq<Skill>, k: int)
    requires SortedDesc(s) && s != [] && s[0].proficiency < k
    ensures Filter(s, AtLevel(k)) == []
  {
    FilterNone(s, AtLevel(k));
  }

  /** Insertion puts `x` after the elements of its own level. */
  lemma {:induction false} InsertAtLevel(x: Skill, s: seq<Skill>, k: int)
    requires SortedDesc(s)
    ensures Filter(Insert(x, s), AtLevel(k)) == Filter(s, AtLevel(k)) + Filter([x], AtLevel(k))
  {
    if s == [] {
      assert Insert(x, s) == [x];
    } else if s[0].proficiency < x.proficiency {
      InsertInFront(x, s, k);
    } else {
      InsertAtLevel(x, s[1..], k);
      InsertBehindHead(x, s, k);
    }
  }

  /** `x` goes in front of a list whose head is less proficient. */
  lemma {:induction false} InsertInFront(x: Skill, s: seq<Skill>, k: int)
    requires SortedDesc(s) && s != [] && s[0].proficiency < x.proficiency
    ensures Filter(Insert(x, s), AtLevel(k)) == Filter(s, AtLevel(k)) + Filter([x], AtLevel(k))
  {
    InsertInFrontUnfolds(x, s);
    FilterAppend([x], s, AtLevel(k));
    if x.proficiency == k {
      NoneAtLevelBelowHead(s, k);
    } else {
      FilterNone([x], AtLevel(k));
    }
    SwapWithEmpty(Filter([x], AtLevel(k)), Filter(s, AtLevel(k)));
  }

  lemma {:induction false} InsertInFrontUnfolds(x: Skill, s: seq<Skill>)
    requires SortedDesc(s) && s != [] && s[0].proficiency < x.proficiency
    ensures Insert(x, s) == [x] + s
  {
  }

  /** Concatenation with an empty side commutes. */
  lemma {:induction false} SwapWithEmpty<T>(a: seq<T>, b: seq<T>)
    requires a == [] || b == []
    ensures a + b == b + a
  {
    if a == [] {
      assert a + b == b && b + a == b;
    } else {
      assert a + b == a && b + a == a;
    }
  }

  lemma {:induction false} InsertBehindUnfolds(x: Skill, s: seq<Skill>)
    requires SortedDesc(s) && s != [] && s[0].proficiency >= x.proficiency
    ensures Insert(x, s) == [s[0]] + Insert(x, s[1..])
    ensures s == [s[0]] + s[1..]
  {
  }

  /** `x` goes behind the head, into the tail. */
  lemma {:induction false} InsertBehindHead(x: Skill, s: seq<Skill>, k: int)
    requires SortedDesc(s) && s != [] && s[0].proficiency >= x.proficiency
    requires Filter(Insert(x, s[1..]), AtLevel(k)) == Filter(s[1..], AtLevel(k)) + Filter([x], AtLevel(k))
    ensures Filter(Insert(x, s), AtLevel(k)) == Filter(s, AtLevel(k)) + Filter([x], AtLevel(k))
  {
    InsertBehindUnfolds(x, s);
    FilterConsBoth(s[0], Insert(x, s[1..]), s[1..], Filter([x], AtLevel(k)), AtLevel(k));
  }

  /** Stability: at every proficiency level the skills keep their order. */
  lemma {:induction false} SortIsStable(xs: seq<Skill>, k: int)
    ensures Filter(SortByProficiency(xs), AtLevel(k)) == Filter(xs, AtLevel(k))
  {
    if xs != [] {
      var init := xs[..|xs| - 1];
      var last := xs[|xs| - 1];
      assert xs == init + [last];
      SortIsStable(init, k);
      InsertAtLevel(last, SortByProficiency(init), k);
      FilterAppend(init, [last], AtLevel(k));
    }
  }

  const StarCount := 5

  /** The star row from position `i` on: filled below the proficiency. */
  function StarsFrom(i: nat, proficiency: int): (r: seq<bool>)
    requires i <= StarCount
    ensures |r| == StarCount - i
    ensures forall j :: 0 <= j < |r| ==> (r[j] <==> i + j < proficiency)
    decreases StarCount - i
  {
    if i == StarCount then [] else [i < proficiency] + StarsFrom(i + 1, proficiency)
  }

  /** `renderStars`: five stars, the first `proficiency` of them filled. */
  function RenderStars(proficiency: Proficiency): (r: seq<bool>)
    ensures |r| == StarCount
  {
    StarsFrom(0, proficiency)
  }

  function IsFilled(b: bool): bool
  {
    b
  }

  lemma {:induction false} FilledFrom(i: nat, p: Proficiency)
    requires i <= StarCount
    ensures Count(StarsFrom(i, p), IsFilled) == if p <= i then 0 else p - i
    decreases StarCount - i
  {
    if i < StarCount {
      FilledFrom(i + 1, p);
    }
  }

  /** Exactly `proficiency` stars are filled, and they come first. */
  lemma {:induction false} StarsShowProficiency(p: Proficiency)
    ensures Count(RenderStars(p), IsFilled) == p
    ensures forall j :: 0 <= j < StarCount ==> (RenderStars(p)[j] <==> j < p)
  {
    FilledFrom(0, p);
  }

  /** The unit after the years figure: singular only for exactly one. */
  function YearsUnit(years: int): (r: string)
    ensures r == "year" <==> years == 1
    ensures r == "years" <==> years != 1
  {
    if years != 1 then "years" else "year"
  }
}
