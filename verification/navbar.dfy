/** The dashboard navigation bar: which of its buttons is highlighted for
    the current path. */
module Navbar {
  import opened Strings

  /** The bar's buttons and the path each links to. */
  datatype Button = Dashboard | Sessions | Availability | Ai | Children

  function Target(b: Button): string {
    match b
    case Dashboard => "/dashboard"
    case Sessions => "/dashboard/sessions"
    case Availability => "/dashboard/availability"
    case Ai => "/dashboard/ai"
    case Children => "/dashboard/children"
  }

  /** `isActive`: the path itself or anything below it. */
  predicate IsActive(pathname: string, path: string) {
    pathname == path || StartsWith(pathname, path + "/")
  }

  /** A button is drawn highlighted (`default`) rather than `ghost`; the
      Dashboard button is excluded on the sessions pages only. */
  predicate Highlighted(pathname: string, b: Button) {
    if b == Dashboard then IsActive(pathname, "/dashboard") && !IsActive(pathname, "/dashboard/sessions")
    else IsActive(pathname, Target(b))
  }

  /** An active path starts with the button's path; a sibling that merely
      shares the prefix, such as "/dashboardx", is not active. */
  lemma ActiveMeansPrefix(pathname: string, path: string)
    ensures IsActive(pathname, path) ==> StartsWith(pathname, path)
    ensures |pathname| > |path| && StartsWith(pathname, path) && pathname[|path|] != '/'
            ==> !IsActive(pathname, path)
  {
    if StartsWith(pathname, path + "/") {
      assert pathname[..|path|] == (path + "/")[..|path|];
    }
    if IsActive(pathname, path) && |pathname| > |path| && pathname != path {
      assert pathname[|path|] == (path + "/")[|path|];
    }
  }

  /** Each button is highlighted on its own page. */
  lemma OwnPageHighlighted(b: Button)
    ensures Highlighted(Target(b), b)
  {
    if b == Dashboard {
      var p := "/dashboard";
      assert p != "/dashboard/sessions";
      assert !StartsWith(p, "/dashboard/sessions/");
    }
  }

  /** The Dashboard and Sessions buttons are never highlighted together. */
  lemma DashboardExcludesSessions(pathname: string)
    ensures !(Highlighted(pathname, Dashboard) && Highlighted(pathname, Sessions))
  {
  }

  /** Below "/dashboard/", every page but the sessions pages keeps the
      Dashboard button highlighted next to its own: on the availability
      page two buttons are lit. */
  lemma DashboardLitBelow(pathname: string)
    requires StartsWith(pathname, "/dashboard/") && !IsActive(pathname, "/dashboard/sessions")
    ensures Highlighted(pathname, Dashboard)
  {
  }

  lemma AvailabilityLightsTwo()
    ensures Highlighted("/dashboard/availability", Dashboard)
    ensures Highlighted("/dashboard/availability", Availability)
  {
    var p := "/dashboard/availability";
    assert p[..|"/dashboard/"|] == "/dashboard/";
    assert p[11] != "/dashboard/sessions"[11];
    DashboardLitBelow(p);
  }

  /** Of the four section buttons at most one is highlighted: no section
      path lies below another. */
  lemma SectionsExclusive(pathname: string, a: Button, b: Button)
    requires a != Dashboard && b != Dashboard && a != b
    ensures Highlighted(pathname, a) ==> !Highlighted(pathname, b)
  {
    var x, y := Target(a), Target(b);
    if Highlighted(pathname, a) {
      ActiveMeansPrefix(pathname, x);
      ActiveMeansPrefix(pathname, y);
      var k := if x[11] != y[11] then 11 else 12;
      assert x[k] != y[k];
      assert pathname[k] == x[k];
    }
  }
}
