/**
 * The client's route table and its guard: frontend/src/App.jsx. Paths are
 * matched as React Router does by default: ignoring ASCII case and
 * trailing slashes.
 */
module AppRoutes {
  import opened Wrappers
  import opened Text
  import opened UserModel
  import opened Session

  /** What `PrivateRoute` renders. */
  datatype View = LoadingScreen | Redirect(to: string) | Children

  /**
   * `PrivateRoute`: the loading screen while the session is being fetched,
   * whoever the user; then /login without a user; then /projects for a
   * non-Admin on an admin-only route; otherwise the page itself.
   */
  function PrivateRoute(user: Option<SessionUser>, loading: bool, adminOnly: bool := false): (v: View)
    ensures loading ==> v == LoadingScreen
    ensures !loading && user.None? ==> v == Redirect("/login")
    ensures !loading && user.Some? && adminOnly && user.value.role != Admin ==> v == Redirect("/projects")
    ensures v == Children <==> !loading && user.Some? && (!adminOnly || user.value.role == Admin)
  {
    if loading then LoadingScreen
    else if user.None? then Redirect("/login")
    else if adminOnly && user.value.role != Admin then Redirect("/projects")
    else Children
  }

  datatype Page = LoginPage | SignupPage | ProjectsPage | RequestAccessPage | CreateProjectPage | ReportsPage | UsersPage

  /** An entry of the table: a page shown to anyone, a page behind PrivateRoute, or the catch-all redirect. */
  datatype Entry = Open(page: Page) | Guarded(page: Page, adminOnly: bool) | CatchAll

  /** The path with its trailing slashes removed: a prefix not ending in '/', followed only by slashes. */
  function TrimSlashes(path: string): (r: string)
    ensures r <= path && (r == [] || r[|r| - 1] != '/')
    ensures forall k :: |r| <= k < |path| ==> path[k] == '/'
  {
    if path != [] && path[|path| - 1] == '/' then TrimSlashes(path[..|path| - 1]) else path
  }

  /** A run of n slashes. */
  function Slashes(n: nat): (s: string)
    ensures |s| == n && forall k :: 0 <= k < n ==> s[k] == '/'
  {
    if n == 0 then [] else Slashes(n - 1) + "/"
  }

  /** Appending slashes to a path does not change what trimming leaves. */
  lemma {:induction false} TrimSlashesIgnoresSlashes(path: string, n: nat)
    ensures TrimSlashes(path + Slashes(n)) == TrimSlashes(path)
  {
    if n == 0 {
      assert path + Slashes(n) == path;
    } else {
      var longer := path + Slashes(n);
      assert longer[..|longer| - 1] == path + Slashes(n - 1);
      TrimSlashesIgnoresSlashes(path, n - 1);
    }
  }

  /**
   * Whether a path selects a route: equal once trailing slashes are trimmed
   * and both are lower-cased.
   */
  predicate Matches(path: string, route: string)
    ensures Matches(path, route) ==> |TrimSlashes(path)| == |route|
    ensures TrimSlashes(path) == route ==> Matches(path, route)
  {
    ToLower(TrimSlashes(path)) == ToLower(route)
  }

  /** Trailing slashes never change whether a path selects a route. */
  lemma MatchesIgnoresTrailingSlashes(path: string, route: string, n: nat)
    ensures Matches(path + Slashes(n), route) <==> Matches(path, route)
  {
    TrimSlashesIgnoresSlashes(path, n);
  }

  /** The `<Routes>` table, first match wins, `*` last. */
  function Lookup(path: string): (e: Entry)
    ensures e.Open? ==> e.page == LoginPage || e.page == SignupPage
    ensures e.Guarded? ==> (e.adminOnly <==> AdminPage(e.page))
    ensures e.CatchAll? <==>
      && !Matches(path, "/login") && !Matches(path, "/signup") && !Matches(path, "/projects")
      && !Matches(path, "/request-access") && !Matches(path, "/createProject")
      && !Matches(path, "/reports") && !Matches(path, "/users")
  {
    if Matches(path, "/login") then Open(LoginPage)
    else if Matches(path, "/signup") then Open(SignupPage)
    else if Matches(path, "/projects") then Guarded(ProjectsPage, false)
    else if Matches(path, "/request-access") then Guarded(RequestAccessPage, false)
    else if Matches(path, "/createProject") then Guarded(CreateProjectPage, true)
    else if Matches(path, "/reports") then Guarded(ReportsPage, true)
    else if Matches(path, "/users") then Guarded(UsersPage, true)
    else CatchAll
  }

  /** What the browser ends up showing for a path. */
  datatype Screen = Show(page: Page) | Loading | GoTo(to: string)

  /**
   * The page's `<Route>` element for a path: an open page as is, a guarded
   * one through PrivateRoute, and anything else sent to /login.
   */
  function Resolve(path: string, user: Option<SessionUser>, loading: bool): (s: Screen)
    ensures s == Loading ==> loading && Lookup(path).Guarded?
    ensures s.GoTo? ==> s.to == "/login" || (s.to == "/projects" && Lookup(path).Guarded? && Lookup(path).adminOnly)
    ensures Lookup(path).Open? ==> s == Show(Lookup(path).page)
    ensures s.Show? ==> !Lookup(path).CatchAll? && s.page == Lookup(path).page
  {
    match Lookup(path)
    case Open(p) => Show(p)
    case CatchAll => GoTo("/login")
    case Guarded(p, adminOnly) =>
      match PrivateRoute(user, loading, adminOnly)
      case LoadingScreen => Loading
      case Redirect(to) => GoTo(to)
      case Children => Show(p)
  }

  /** The pages only an Admin may see. */
  predicate AdminPage(p: Page) {
    p == CreateProjectPage || p == ReportsPage || p == UsersPage
  }

  /**
   * Whatever the path, an admin-only page is shown only to a loaded Admin,
   * and the other guarded pages to any loaded user.
   */
  lemma ShownPagesRespectGuards(path: string, user: Option<SessionUser>, loading: bool)
    ensures Resolve(path, user, loading).Show? && AdminPage(Resolve(path, user, loading).page) ==>
      !loading && user.Some? && user.value.role == Admin
    ensures Resolve(path, user, loading).Show? && Resolve(path, user, loading).page in {ProjectsPage, RequestAccessPage} ==>
      !loading && user.Some?
  {
  }

  /** The five guarded paths and which of them are admin-only. */
  lemma GuardTable()
    ensures Lookup("/createProject") == Guarded(CreateProjectPage, true)
    ensures Lookup("/reports") == Guarded(ReportsPage, true)
    ensures Lookup("/users") == Guarded(UsersPage, true)
    ensures Lookup("/projects") == Guarded(ProjectsPage, false)
    ensures Lookup("/request-access") == Guarded(RequestAccessPage, false)
  {
    assert ToLower("/createProject") == "/createproject";
    assert ToLower("/reports") == "/reports";
    assert ToLower("/users") == "/users";
    assert ToLower("/projects") == "/projects";
    assert ToLower("/request-access") == "/request-access";
  }

  /** A path no route names sends the browser to /login, signed in or not, loading or not. */
  lemma UnmatchedGoesToLogin(path: string, user: Option<SessionUser>, loading: bool)
    requires !Matches(path, "/login") && !Matches(path, "/signup") && !Matches(path, "/projects")
    requires !Matches(path, "/request-access") && !Matches(path, "/createProject")
    requires !Matches(path, "/reports") && !Matches(path, "/users")
    ensures Resolve(path, user, loading) == GoTo("/login")
  {
  }
}
