/**
 * src/data/projects.ts: the project record, its runtime type guard over an
 * arbitrary JavaScript value, the four sample projects, and the two queries
 * over them (a threshold filter and a descending stable sort on a copy).
 */
module Projects {
  import opened Outcomes
  import Seqs
  import StableSort

  /** `mvpProgress` is a JavaScript number; NaN and the infinities are not modelled. */
  datatype Project = Project(id: string, title: string, description: string, mvpProgress: real)

  /** The JavaScript values `isValidProject` can be handed; `JsObject` lists its own properties. */
  datatype JsValue =
    | JsUndefined
    | JsNull
    | JsBoolean(b: bool)
    | JsNumber(n: real)
    | JsString(s: string)
    | JsArray(elements: seq<JsValue>)
    | JsObject(properties: map<string, JsValue>)

  /** `typeof object[name] === "string"`, with `name in object` checked first. */
  predicate HasString(properties: map<string, JsValue>, name: string)
  {
    name in properties && properties[name].JsString?
  }

  /** `isValidProject`: an object whose id, title and description are strings and whose mvpProgress is a number in 0..100. */
  predicate IsValidProject(v: JsValue)
  {
    && v.JsObject?
    && HasString(v.properties, "id")
    && HasString(v.properties, "title")
    && HasString(v.properties, "description")
    && "mvpProgress" in v.properties && v.properties["mvpProgress"].JsNumber?
    && 0.0 <= v.properties["mvpProgress"].n <= 100.0
  }

  /** The object literal a project is written as. */
  function ToJs(p: Project): (v: JsValue)
    ensures v.JsObject? && v.properties.Keys == {"id", "title", "description", "mvpProgress"}
  {
    JsObject(map[
      "id" := JsString(p.id),
      "title" := JsString(p.title),
      "description" := JsString(p.description),
      "mvpProgress" := JsNumber(p.mvpProgress)])
  }

  /** Reading a project back out of a value the guard accepts. */
  function FromJs(v: JsValue): (r: Option<Project>)
    ensures r.Some? <==> IsValidProject(v)
    ensures r.Some? ==> 0.0 <= r.value.mvpProgress <= 100.0
  {
    if IsValidProject(v) then
      Some(Project(
        v.properties["id"].s, v.properties["title"].s, v.properties["description"].s, v.properties["mvpProgress"].n))
    else None
  }

  /** A project literal passes the guard exactly when its progress is a percentage, and reads back unchanged. */
  lemma GuardRoundTrip(p: Project)
    ensures IsValidProject(ToJs(p)) <==> 0.0 <= p.mvpProgress <= 100.0
    ensures 0.0 <= p.mvpProgress <= 100.0 ==> FromJs(ToJs(p)) == Some(p)
  {
    var props := ToJs(p).properties;
    assert props["id"] == JsString(p.id);
    assert props["title"] == JsString(p.title);
    assert props["description"] == JsString(p.description);
    assert props["mvpProgress"] == JsNumber(p.mvpProgress);
  }

  /** `projects` */
  const AllProjects: seq<Project> := [
    Project("ecommerce-platform", "E-Commerce Platform",
      "A full-stack e-commerce solution with real-time inventory management, secure payment processing, and an intuitive admin dashboard for product management.",
      85.0),
    Project("task-management-app", "Task Management App",
      "A collaborative project management tool featuring kanban boards, real-time updates, team assignments, and progress tracking with detailed analytics.",
      65.0),
    Project("ai-content-generator", "AI Content Generator",
      "An intelligent content creation platform that leverages machine learning to generate blog posts, social media content, and marketing copy.",
      40.0),
    Project("fitness-tracker", "Fitness Tracker",
      "A health and fitness application with workout planning, nutrition tracking, progress visualization, and integration with wearable devices.",
      90.0)
  ]

  /** Every sample project passes the type guard, and the ids are distinct. */
  lemma AllProjectsValid()
    ensures forall i :: 0 <= i < |AllProjects| ==> IsValidProject(ToJs(AllProjects[i]))
    ensures forall i, j :: 0 <= i < j < |AllProjects| ==> AllProjects[i].id != AllProjects[j].id
  {
    forall i | 0 <= i < |AllProjects| ensures IsValidProject(ToJs(AllProjects[i])) {
      GuardRoundTrip(AllProjects[i]);
    }
  }

  function AtLeast(minProgress: real): Project -> bool
  {
    (p: Project) => p.mvpProgress >= minProgress
  }

  /** `ps.filter((project) => project.mvpProgress >= minProgress)` */
  function ByProgress(ps: seq<Project>, minProgress: real): seq<Project>
  {
    Seqs.Filter(ps, AtLeast(minProgress))
  }

  /** `getProjectsByProgress(minProgress)` */
  function GetProjectsByProgress(minProgress: real): seq<Project>
  {
    ByProgress(AllProjects, minProgress)
  }

  /** The result holds exactly the projects whose progress reaches the threshold. */
  lemma ByProgressExactly(ps: seq<Project>, minProgress: real, p: Project)
    ensures p in ByProgress(ps, minProgress) <==> p in ps && p.mvpProgress >= minProgress
  {
    Seqs.FilterMember(ps, AtLeast(minProgress), p);
  }

  /** Filtering a concatenation filters each part, so the projects keep their relative order. */
  lemma ByProgressKeepsOrder(ps: seq<Project>, qs: seq<Project>, minProgress: real)
    ensures ByProgress(ps + qs, minProgress) == ByProgress(ps, minProgress) + ByProgress(qs, minProgress)
  {
    Seqs.FilterAppend(ps, qs, AtLeast(minProgress));
  }

  /** Raising the threshold only removes projects: the stricter result filters the looser one. */
  lemma RaisingThresholdNarrows(ps: seq<Project>, low: real, high: real)
    requires low <= high
    ensures Seqs.Filter(ByProgress(ps, low), AtLeast(high)) == ByProgress(ps, high)
    ensures |ByProgress(ps, high)| <= |ByProgress(ps, low)|
  {
    Seqs.FilterOfFilter(ps, AtLeast(low), AtLeast(high));
  }

  function Progress(p: Project): real { p.mvpProgress }

  /** `[...ps].sort((a, b) => b.mvpProgress - a.mvpProgress)`: a stable sort of a copy, highest progress first. */
  function SortedByProgress(ps: seq<Project>): (r: seq<Project>)
    ensures multiset(r) == multiset(ps)
    ensures forall i, j :: 0 <= i < j < |r| ==> r[i].mvpProgress >= r[j].mvpProgress
  {
    var sorted := StableSort.Sort(ps, Progress);
    assert forall i, j :: 0 <= i < j < |sorted| ==> Progress(sorted[i]) >= Progress(sorted[j]);
    sorted
  }

  /** `getProjectsSortedByProgress()`; `projects` itself is a value and stays as it is. */
  function GetProjectsSortedByProgress(): seq<Project>
  {
    SortedByProgress(AllProjects)
  }

  /** Projects with equal progress keep their relative order. */
  lemma SortedByProgressIsStable(ps: seq<Project>, v: real)
    ensures StableSort.WithKey(SortedByProgress(ps), Progress, v) == StableSort.WithKey(ps, Progress, v)
  {
    StableSort.SortIsStable(ps, Progress, v);
  }

  lemma SortOfFour(a: Project, b: Project, c: Project, d: Project)
    requires d.mvpProgress > a.mvpProgress >= b.mvpProgress >= c.mvpProgress
    ensures StableSort.Sort([a, b, c, d], Progress) == [d, a, b, c]
  {
    assert [a, b, c, d][..3] == [a, b, c];
    StableSort.SortOfSorted([a, b, c], Progress);
    StableSort.InsertAhead(d, [a, b, c], Progress);
    ConsThree(d, a, b, c);
  }

  lemma ConsThree(d: Project, a: Project, b: Project, c: Project)
    ensures [d] + [a, b, c] == [d, a, b, c]
  {
  }

  /** With the sample data the order is 90, 85, 65, 40. */
  lemma SortedSampleOrder()
    ensures GetProjectsSortedByProgress() == [AllProjects[3], AllProjects[0], AllProjects[1], AllProjects[2]]
  {
    var s := AllProjects;
    assert s == [s[0], s[1], s[2], s[3]];
    SortOfFour(s[0], s[1], s[2], s[3]);
  }
}
