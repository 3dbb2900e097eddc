/**
 * The in-memory project store behind the home router (`USER_PROJECTS`,
 * seeded from the bundled projects file, with a setter and two getters)
 * and the router's choice between the project home and the empty-state
 * home.
 */
module HomeRouter {

  /** `USER_PROJECTS` and its helper functions. */
  class ProjectStore<P> {
    var projects: seq<P>

    /** The store starts as a copy of the bundled projects. */
    constructor (initial: seq<P>)
      ensures projects == initial
    {
      projects := initial;
    }

    /** `setUserProjects`: replace the whole list. */
    method SetUserProjects(xs: seq<P>)
      modifies this
      ensures projects == xs
    {
      projects := xs;
    }

    /** `getUserProjects`: the stored list, unchanged. */
    method GetUserProjects() returns (xs: seq<P>)
      ensures xs == projects
    {
      xs := projects;
    }

    /** `hasUserProjects`: whether any project is stored. */
    method HasUserProjects() returns (b: bool)
      ensures b <==> |projects| > 0
    {
      b := |projects| > 0;
    }

    /** The `HomeRouter` effect: the route it replaces itself with. */
    method RouteChoice() returns (route: string)
      ensures route == RouteFor(projects != [])
    {
      var userHasProjects := HasUserProjects();
      if userHasProjects {
        route := "/home";
      } else {
        route := "/home2";
      }
    }
  }

  /** `/home` when there are projects, the empty-state `/home2` otherwise. */
  function RouteFor(hasProjects: bool): (route: string)
    ensures route == "/home" <==> hasProjects
    ensures route == "/home2" <==> !hasProjects
  {
    if hasProjects then "/home" else "/home2"
  }

  /** A get right after a set returns what was set, and the router follows it. */
  method SetThenGet<P>(store: ProjectStore<P>, xs: seq<P>) returns (got: seq<P>, route: string)
    modifies store
    ensures got == xs
    ensures store.projects == xs
    ensures route == "/home" <==> xs != []
  {
    store.SetUserProjects(xs);
    got := store.GetUserProjects();
    route := store.RouteChoice();
  }

  /** Two sets in a row leave only the second list. */
  method SetTwice<P>(store: ProjectStore<P>, xs: seq<P>, ys: seq<P>) returns (got: seq<P>)
    modifies store
    ensures got == ys
    ensures store.projects == ys
  {
    store.SetUserProjects(xs);
    store.SetUserProjects(ys);
    got := store.GetUserProjects();
  }

  /** Reading the store, in either way, leaves it as it was. */
  method ReadsLeaveStore<P>(store: ProjectStore<P>) returns (xs: seq<P>, has: bool)
    ensures xs == store.projects
    ensures has <==> xs != []
  {
    xs := store.GetUserProjects();
    has := store.HasUserProjects();
  }
}
