/**
 * src/components/ProjectSidebar.tsx: which of the empty, error and preview
 * panels is shown, and the `loadError` state the preview and the retry button
 * flip.
 */
module ProjectSidebar {
  import opened Outcomes

  datatype SidebarView = Empty | Error | Preview(url: string)

  /** `!githubUrl`: no URL, or the empty string. */
  predicate HasUrl(githubUrl: Option<string>)
  {
    githubUrl.Some? && githubUrl.value != ""
  }

  /** The panel for a URL and a `loadError` flag; the URL is checked first. */
  function View(githubUrl: Option<string>, loadError: bool): (v: SidebarView)
    ensures !HasUrl(githubUrl) ==> v == Empty
    ensures HasUrl(githubUrl) && loadError ==> v == Error
    ensures HasUrl(githubUrl) && !loadError ==> v == Preview(githubUrl.value)
  {
    if !HasUrl(githubUrl) then Empty
    else if loadError then Error
    else Preview(githubUrl.value)
  }

  /** Without a URL the flag is invisible; with one, the flag alone decides between error and preview. */
  lemma ViewDependsOnFlagOnlyWithUrl(githubUrl: Option<string>, a: bool, b: bool)
    ensures !HasUrl(githubUrl) ==> View(githubUrl, a) == View(githubUrl, b)
    ensures HasUrl(githubUrl) ==> (View(githubUrl, a) == View(githubUrl, b) <==> a == b)
  {
  }

  class Sidebar {
    var loadError: bool

    /** `useState(false)` */
    constructor()
      ensures !loadError
    {
      loadError := false;
    }

    /** The preview's `onError` */
    method OnError()
      modifies this
      ensures loadError
    {
      loadError := true;
    }

    /** The error panel's `onRetry` */
    method OnRetry()
      modifies this
      ensures !loadError
    {
      loadError := false;
    }

    function Render(githubUrl: Option<string>): SidebarView
      reads this
    {
      View(githubUrl, loadError)
    }
  }

  /** A failed load shows the error panel, and retrying returns to the preview of the same URL. */
  method ErrorThenRetry(url: string) returns (failed: SidebarView, retried: SidebarView)
    requires url != ""
    ensures failed == Error && retried == Preview(url)
  {
    var sidebar := new Sidebar();
    sidebar.OnError();
    failed := sidebar.Render(Some(url));
    sidebar.OnRetry();
    retried := sidebar.Render(Some(url));
  }
}
