/**
 * src/app/projects/page.tsx: the project list with at most one selected
 * project, toggled by clicking its card, and the sidebar fed from it.
 */
module ProjectsPage {
  import opened Outcomes
  import Projects
  import ProjectSidebar

  /** `current?.id === project.id ? null : project`: clicking the selected project deselects it. */
  function NextSelection(current: Option<Projects.Project>, project: Projects.Project): (r: Option<Projects.Project>)
    ensures current.None? ==> r == Some(project)
    ensures current.Some? && current.value.id == project.id ==> r.None?
    ensures current.Some? && current.value.id != project.id ==> r == Some(project)
  {
    if current.Some? && current.value.id == project.id then None else Some(project)
  }

  /** `selectedProject?.id === project.id` */
  predicate IsExpanded(selected: Option<Projects.Project>, project: Projects.Project)
  {
    selected.Some? && selected.value.id == project.id
  }

  /**
   * Each click flips whether the card is expanded; two clicks on the same card
   * leave it collapsed unless it started expanded, and drop any other selection.
   */
  lemma ClickFlipsCard(current: Option<Projects.Project>, project: Projects.Project)
    ensures IsExpanded(NextSelection(current, project), project) <==> !IsExpanded(current, project)
    ensures NextSelection(NextSelection(current, project), project) ==
      if IsExpanded(current, project) then Some(project) else None
  {
  }

  /** Among projects with distinct ids, at most one card is expanded. */
  lemma AtMostOneExpanded(selected: Option<Projects.Project>, ps: seq<Projects.Project>, i: nat, j: nat)
    requires forall k, l :: 0 <= k < l < |ps| ==> ps[k].id != ps[l].id
    requires i < |ps| && j < |ps|
    requires IsExpanded(selected, ps[i]) && IsExpanded(selected, ps[j])
    ensures i == j
  {
  }

  class ProjectsPage {
    var selectedProject: Option<Projects.Project>

    /** `useState<Project | null>(null)` */
    constructor()
      ensures selectedProject.None?
    {
      selectedProject := None;
    }

    /** `handleSelectProject(project)` */
    method SelectProject(project: Projects.Project)
      modifies this
      ensures selectedProject == NextSelection(old(selectedProject), project)
    {
      selectedProject := NextSelection(selectedProject, project);
    }

    /** The `isExpanded` flag of every card, in the order of `projects`. */
    function Expanded(): (r: seq<bool>)
      reads this
      ensures |r| == |Projects.AllProjects|
      ensures forall k :: 0 <= k < |r| ==> (r[k] <==> IsExpanded(selectedProject, Projects.AllProjects[k]))
    {
      var selected := selectedProject;
      seq(|Projects.AllProjects|, k requires 0 <= k < |Projects.AllProjects| => IsExpanded(selected, Projects.AllProjects[k]))
    }

    /**
     * The sidebar's props: the selected title and `selectedProject?.githubUrl`.
     * A project has no `githubUrl`, so the URL is always undefined.
     */
    function SidebarUrl(): Option<string>
      reads this
    {
      None
    }
  }

  /** Whatever is selected, the projects page shows the empty sidebar panel, for either `loadError`. */
  lemma SidebarAlwaysEmpty(page: ProjectsPage, loadError: bool)
    ensures ProjectSidebar.View(page.SidebarUrl(), loadError) == ProjectSidebar.Empty
  {
  }
}
