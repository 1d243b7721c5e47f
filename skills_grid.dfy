/**
 * src/components/SkillsGrid.tsx: the skills either in one grid, or grouped
 * by category with one grid per group, and the responsive column counts.
 */
module SkillsGrid {
  import opened Outcomes
  import opened Seqs

  /** `SkillCategory` of src/data/skills.ts; none of its names is an integer-like key. */
  datatype SkillCategory = Leadership | Languages | Architecture | Infrastructure | Databases | Tools

  datatype Skill = Skill(name: string, category: SkillCategory)

  datatype SkillGroup = SkillGroup(category: SkillCategory, skills: seq<Skill>)

  function Categories(skills: seq<Skill>): (r: seq<SkillCategory>)
    ensures |r| == |skills| && forall i :: 0 <= i < |skills| ==> r[i] == skills[i].category
  {
    seq(|skills|, i requires 0 <= i < |skills| => skills[i].category)
  }

  function InCategory(c: SkillCategory): Skill -> bool
  {
    (s: Skill) => s.category == c
  }

  /** For each category in `order`, the skills of that category, in input order. */
  function GroupsOver(order: seq<SkillCategory>, skills: seq<Skill>): (r: seq<SkillGroup>)
    ensures |r| == |order|
    ensures forall k :: 0 <= k < |r| ==> r[k].category == order[k]
  {
    seq(|order|, k requires 0 <= k < |order| => SkillGroup(order[k], Filter(skills, InCategory(order[k]))))
  }

  /** The result of the grouping `reduce` followed by `Object.entries`. */
  function Groups(skills: seq<Skill>): seq<SkillGroup>
  {
    GroupsOver(Distinct(Categories(skills)), skills)
  }

  lemma FilterSnoc(visited: seq<Skill>, x: Skill, c: SkillCategory)
    ensures Filter(visited + [x], InCategory(c)) == Filter(visited, InCategory(c)) + (if x.category == c then [x] else [])
  {
    assert (visited + [x])[..|visited|] == visited;
  }

  /** The accumulator after visiting `visited`: keys in creation order, each with its skills. */
  ghost predicate Grouping(order: seq<SkillCategory>, acc: map<SkillCategory, seq<Skill>>, visited: seq<Skill>)
  {
    && order == Distinct(Categories(visited))
    && KeysAre(acc, order)
    && Collects(acc, visited)
  }

  ghost predicate KeysAre(acc: map<SkillCategory, seq<Skill>>, order: seq<SkillCategory>)
  {
    forall c :: c in acc <==> c in order
  }

  /** Each key holds the visited skills of its category, in order. */
  ghost predicate Collects(acc: map<SkillCategory, seq<Skill>>, visited: seq<Skill>)
  {
    forall c :: c in acc ==> acc[c] == Filter(visited, InCategory(c))
  }

  lemma DistinctCategoriesSnoc(visited: seq<Skill>, skill: Skill)
    ensures var d := Distinct(Categories(visited));
      Distinct(Categories(visited + [skill])) == if skill.category in d then d else d + [skill.category]
  {
    assert Categories(visited + [skill]) == Categories(visited) + [skill.category];
    DistinctSnoc(Categories(visited), skill.category);
  }

  lemma GroupStepKnown(order: seq<SkillCategory>, acc: map<SkillCategory, seq<Skill>>, visited: seq<Skill>, skill: Skill)
    requires Grouping(order, acc, visited) && skill.category in acc
    ensures Grouping(order, acc[skill.category := acc[skill.category] + [skill]], visited + [skill])
  {
    assert skill.category in order;
    DistinctCategoriesSnoc(visited, skill);
    KnownCategoryValues(acc, visited, skill);
  }

  lemma KnownCategoryValues(acc: map<SkillCategory, seq<Skill>>, visited: seq<Skill>, skill: Skill)
    requires skill.category in acc
    requires Collects(acc, visited)
    ensures Collects(acc[skill.category := acc[skill.category] + [skill]], visited + [skill])
  {
    var acc' := acc[skill.category := acc[skill.category] + [skill]];
    forall c | c in acc' ensures acc'[c] == Filter(visited + [skill], InCategory(c)) {
      FilterSnoc(visited, skill, c);
    }
  }

  lemma GroupStepNew(order: seq<SkillCategory>, acc: map<SkillCategory, seq<Skill>>, visited: seq<Skill>, skill: Skill)
    requires Grouping(order, acc, visited) && skill.category !in acc
    ensures Grouping(order + [skill.category], acc[skill.category := [] + [skill]], visited + [skill])
  {
    assert skill.category !in order;
    DistinctCategoriesSnoc(visited, skill);
    NothingFiltered(visited, skill.category, order);
    NewCategoryValues(acc, visited, skill);
  }

  lemma NewCategoryValues(acc: map<SkillCategory, seq<Skill>>, visited: seq<Skill>, skill: Skill)
    requires Filter(visited, InCategory(skill.category)) == []
    requires Collects(acc, visited)
    ensures Collects(acc[skill.category := [] + [skill]], visited + [skill])
  {
    var acc' := acc[skill.category := [] + [skill]];
    forall c | c in acc' ensures acc'[c] == Filter(visited + [skill], InCategory(c)) {
      FilterSnoc(visited, skill, c);
    }
  }

  /**
   * `skills.reduce(...)`: a record keyed by category, created on a category's
   * first skill and appended to with `push`; its entries come out in the
   * order the keys were created.
   */
  method GroupByCategory(skills: seq<Skill>) returns (groups: seq<SkillGroup>)
    ensures groups == Groups(skills)
  {
    var order: seq<SkillCategory> := [];
    var acc: map<SkillCategory, seq<Skill>> := map[];
    assert Categories(skills[..0]) == [];
    for i := 0 to |skills|
      invariant Grouping(order, acc, skills[..i])
    {
      var skill := skills[i];
      SliceStep(skills, i);
      if skill.category !in acc {
        GroupStepNew(order, acc, skills[..i], skill);
        acc := acc[skill.category := []];
        order := order + [skill.category];
      } else {
        GroupStepKnown(order, acc, skills[..i], skill);
      }
      acc := acc[skill.category := acc[skill.category] + [skill]];
    }
    assert skills[..|skills|] == skills;
    groups := seq(|order|, k requires 0 <= k < |order| => SkillGroup(order[k], acc[order[k]]));
  }

  /** A category that no visited skill has collects nothing. */
  lemma {:induction false} NothingFiltered(skills: seq<Skill>, c: SkillCategory, order: seq<SkillCategory>)
    requires order == Distinct(Categories(skills))
    requires c !in order
    ensures Filter(skills, InCategory(c)) == []
  {
    if |skills| > 0 {
      var init := skills[..|skills| - 1];
      assert Categories(skills)[..|skills| - 1] == Categories(init);
      NothingFiltered(init, c, Distinct(Categories(init)));
    }
  }

  /** A skill is in a group exactly when it is one of the skills and has that group's category. */
  lemma SkillInItsOwnGroup(skills: seq<Skill>, k: nat, x: Skill)
    requires k < |Groups(skills)|
    ensures x in Groups(skills)[k].skills <==> x in skills && x.category == Groups(skills)[k].category
  {
    FilterMember(skills, InCategory(Groups(skills)[k].category), x);
  }

  /**
   * The groups follow the first appearance of each category, every category of
   * the input has exactly one group, and no group is empty.
   */
  lemma GroupsByFirstAppearance(skills: seq<Skill>)
    ensures forall k :: 0 <= k < |Groups(skills)| ==> Groups(skills)[k].category == Distinct(Categories(skills))[k]
    ensures forall i :: 0 <= i < |skills| ==> exists k :: 0 <= k < |Groups(skills)| && Groups(skills)[k].category == skills[i].category
    ensures forall k, l :: 0 <= k < l < |Groups(skills)| ==> Groups(skills)[k].category != Groups(skills)[l].category
    ensures forall k :: 0 <= k < |Groups(skills)| ==> |Groups(skills)[k].skills| > 0
  {
    var d := Distinct(Categories(skills));
    var groups := Groups(skills);
    forall i | 0 <= i < |skills|
      ensures exists k :: 0 <= k < |groups| && groups[k].category == skills[i].category
    {
      assert Categories(skills)[i] in d;
      var k :| 0 <= k < |d| && d[k] == skills[i].category;
      assert groups[k].category == skills[i].category;
    }
    forall k | 0 <= k < |groups| ensures |groups[k].skills| > 0 {
      var i :| 0 <= i < |skills| && Categories(skills)[i] == d[k];
      FilterMember(skills, InCategory(d[k]), skills[i]);
    }
  }

  /** The skills of the groups over `order`, counted with multiplicity. */
  function MultisetOver(order: seq<SkillCategory>, skills: seq<Skill>): multiset<Skill>
  {
    if |order| == 0 then multiset{}
    else MultisetOver(order[..|order| - 1], skills) + multiset(Filter(skills, InCategory(order[|order| - 1])))
  }

  lemma {:induction false} MultisetOverNothing(order: seq<SkillCategory>)
    ensures MultisetOver(order, []) == multiset{}
  {
    if |order| > 0 {
      MultisetOverNothing(order[..|order| - 1]);
    }
  }

  lemma {:induction false} MultisetOverSnoc(order: seq<SkillCategory>, skills: seq<Skill>, x: Skill)
    requires NoDuplicates(order)
    ensures MultisetOver(order, skills + [x]) ==
      MultisetOver(order, skills) + (if x.category in order then multiset{x} else multiset{})
  {
    if |order| > 0 {
      var init, last := order[..|order| - 1], order[|order| - 1];
      assert NoDuplicates(init);
      MultisetOverSnoc(init, skills, x);
      FilterSnoc(skills, x, last);
      InitLast(order);
    }
  }

  /** Splitting a sequence without duplicates into its front and its last element. */
  lemma InitLast(order: seq<SkillCategory>)
    requires NoDuplicates(order) && |order| > 0
    ensures forall c :: c in order <==> c in order[..|order| - 1] || c == order[|order| - 1]
    ensures order[|order| - 1] !in order[..|order| - 1]
  {
    assert order == order[..|order| - 1] + [order[|order| - 1]];
  }

  lemma {:induction false} MultisetOverAll(order: seq<SkillCategory>, skills: seq<Skill>)
    requires NoDuplicates(order)
    requires forall i :: 0 <= i < |skills| ==> skills[i].category in order
    ensures MultisetOver(order, skills) == multiset(skills)
  {
    if |skills| == 0 {
      MultisetOverNothing(order);
    } else {
      var init, x := skills[..|skills| - 1], skills[|skills| - 1];
      MultisetOverAll(order, init);
      MultisetOverSnoc(order, init, x);
      assert skills == init + [x];
    }
  }

  function Members(groups: seq<SkillGroup>): (r: seq<seq<Skill>>)
    ensures |r| == |groups| && forall k :: 0 <= k < |groups| ==> r[k] == groups[k].skills
  {
    seq(|groups|, k requires 0 <= k < |groups| => groups[k].skills)
  }

  lemma MembersSnoc(order: seq<SkillCategory>, skills: seq<Skill>)
    requires |order| > 0
    ensures Members(GroupsOver(order, skills)) ==
      Members(GroupsOver(order[..|order| - 1], skills)) + [Filter(skills, InCategory(order[|order| - 1]))]
  {
  }

  lemma {:induction false} ConcatGroupsOver(order: seq<SkillCategory>, skills: seq<Skill>)
    ensures multiset(Concat(Members(GroupsOver(order, skills)))) == MultisetOver(order, skills)
  {
    if |order| > 0 {
      var init := order[..|order| - 1];
      ConcatGroupsOver(init, skills);
      MembersSnoc(order, skills);
      ConcatSnoc(Members(GroupsOver(init, skills)), Filter(skills, InCategory(order[|order| - 1])));
    }
  }

  /** Concatenating the groups gives back the input skills: none lost, none duplicated. */
  lemma GroupsPartitionSkills(skills: seq<Skill>)
    ensures multiset(Concat(Members(Groups(skills)))) == multiset(skills)
  {
    var d := Distinct(Categories(skills));
    ConcatGroupsOver(d, skills);
    forall i | 0 <= i < |skills| ensures skills[i].category in d {
      assert Categories(skills)[i] == skills[i].category;
    }
    MultisetOverAll(d, skills);
  }

  // ---------------------------------------------------------------- columns

  /** The `columns` prop: each count may be left out. */
  datatype ColumnsProp = ColumnsProp(xs: Option<int>, sm: Option<int>, md: Option<int>)

  /** The counts passed to `repeat(n, 1fr)` at each breakpoint. */
  datatype GridColumns = GridColumns(xs: int, sm: int, md: int)

  /** The parameter default `{ xs: 1, sm: 2, md: 2 }`, used when no `columns` prop is given. */
  const DefaultColumns := ColumnsProp(Some(1), Some(2), Some(2))

  /** `count || fallback`: a missing count or 0 gives the fallback. */
  function OrElse(count: Option<int>, fallback: int): (r: int)
    ensures count.None? || count.value == 0 ==> r == fallback
    ensures count.Some? && count.value != 0 ==> r == count.value
  {
    if count.Some? && count.value != 0 then count.value else fallback
  }

  function Columns(columns: Option<ColumnsProp>): GridColumns
  {
    var c := if columns.Some? then columns.value else DefaultColumns;
    GridColumns(OrElse(c.xs, 1), OrElse(c.sm, 2), OrElse(c.md, 3))
  }

  /**
   * Without a `columns` prop the grid uses 1, 2 and 2 columns; a prop whose
   * counts are missing or zero falls back to 1, 2 and 3.
   */
  lemma ColumnDefaults(xs: Option<int>, sm: Option<int>, md: Option<int>)
    ensures Columns(None) == GridColumns(1, 2, 2)
    ensures (xs.None? || xs == Some(0)) && (sm.None? || sm == Some(0)) && (md.None? || md == Some(0)) ==>
      Columns(Some(ColumnsProp(xs, sm, md))) == GridColumns(1, 2, 3)
    ensures forall n :: n != 0 ==> Columns(Some(ColumnsProp(Some(n), sm, md))).xs == n
  {
  }

  /** The whole grid: one flat list, or one section per category. */
  datatype Layout =
    | Flat(items: seq<Skill>, columns: GridColumns)
    | Sections(groups: seq<SkillGroup>, columns: GridColumns)

  method RenderSkillsGrid(skills: seq<Skill>, columns: Option<ColumnsProp>, groupByCategory: bool)
    returns (layout: Layout)
    ensures !groupByCategory ==> layout == Flat(skills, Columns(columns))
    ensures groupByCategory ==> layout == Sections(Groups(skills), Columns(columns))
  {
    if groupByCategory {
      var groups := GroupByCategory(skills);
      return Sections(groups, Columns(columns));
    }
    return Flat(skills, Columns(columns));
  }
}
