/** The header's page title for the current path. */
module Header {

  /** `s.startsWith(prefix)` */
  predicate StartsWith(s: string, prefix: string) {
    |prefix| <= |s| && s[..|prefix|] == prefix
  }

  /** The prefix rules in the order they are tried, each with its title. */
  const Rules: seq<(string, string)> := [
    ("/login", "Login"), ("/register", "Register"), ("/dashboard", "Dashboard"), ("/tasks", "Tasks"),
    ("/goals", "Goals"), ("/profile", "Profile"), ("/settings", "Settings")]

  const Titles: seq<string> := ["Home", "Login", "Register", "Dashboard", "Tasks", "Goals", "Profile", "Settings", "Page"]

  /** `getRouteTitle(pathname)` */
  function RouteTitle(pathname: string): (t: string)
    ensures t in Titles
    ensures pathname == "/" || pathname == "/home" ==> t == "Home"
  {
    if pathname == "/" || pathname == "/home" then "Home"
    else if StartsWith(pathname, "/login") then "Login"
    else if StartsWith(pathname, "/register") then "Register"
    else if StartsWith(pathname, "/dashboard") then "Dashboard"
    else if StartsWith(pathname, "/tasks") then "Tasks"
    else if StartsWith(pathname, "/goals") then "Goals"
    else if StartsWith(pathname, "/profile") then "Profile"
    else if StartsWith(pathname, "/settings") then "Settings"
    else "Page"
  }

  /** The title of the first rule whose prefix the path starts with, or `Page`. */
  function FirstMatch(rules: seq<(string, string)>, pathname: string): (t: string)
    ensures t == "Page" || exists i :: 0 <= i < |rules| && t == rules[i].1
  {
    if rules == [] then "Page"
    else if StartsWith(pathname, rules[0].0) then rules[0].1
    else FirstMatch(rules[1..], pathname)
  }

  /** `FirstMatch` picks rule `i` exactly when its prefix matches and no earlier one does. */
  lemma {:induction false} FirstMatchIsFirst(rules: seq<(string, string)>, pathname: string, i: nat)
    requires i < |rules|
    requires StartsWith(pathname, rules[i].0)
    requires forall j :: 0 <= j < i ==> !StartsWith(pathname, rules[j].0)
    ensures FirstMatch(rules, pathname) == rules[i].1
  {
    if i > 0 {
      assert !StartsWith(pathname, rules[0].0);
      FirstMatchIsFirst(rules[1..], pathname, i - 1);
    }
  }

  /** With no prefix matching, the title is `Page`. */
  lemma {:induction false} FirstMatchNone(rules: seq<(string, string)>, pathname: string)
    requires forall j :: 0 <= j < |rules| ==> !StartsWith(pathname, rules[j].0)
    ensures FirstMatch(rules, pathname) == "Page"
  {
    if rules != [] {
      assert !StartsWith(pathname, rules[0].0);
      FirstMatchNone(rules[1..], pathname);
    }
  }

  /** The title is `Home` for the two exact paths, and otherwise that of the first matching rule
      in the table, or `Page` when none matches. */
  lemma RouteTitleIsFirstMatch(pathname: string)
    ensures RouteTitle(pathname) == (if pathname == "/" || pathname == "/home" then "Home" else FirstMatch(Rules, pathname))
  {
    var p := pathname;
    if p == "/" || p == "/home" {
    } else if StartsWith(p, "/login") {
      FirstMatchIsFirst(Rules, p, 0);
    } else if StartsWith(p, "/register") {
      FirstMatchIsFirst(Rules, p, 1);
    } else if StartsWith(p, "/dashboard") {
      FirstMatchIsFirst(Rules, p, 2);
    } else if StartsWith(p, "/tasks") {
      FirstMatchIsFirst(Rules, p, 3);
    } else if StartsWith(p, "/goals") {
      FirstMatchIsFirst(Rules, p, 4);
    } else if StartsWith(p, "/profile") {
      FirstMatchIsFirst(Rules, p, 5);
    } else if StartsWith(p, "/settings") {
      FirstMatchIsFirst(Rules, p, 6);
    } else {
      FirstMatchNone(Rules, p);
    }
  }

  /** A path that differs from a prefix at some position inside both does not start with it. */
  lemma DiffersAt(s: string, prefix: string, k: nat)
    requires k < |s| && k < |prefix| && s[k] != prefix[k]
    ensures !StartsWith(s, prefix)
  {
    if |prefix| <= |s| {
      assert s[..|prefix|][k] == s[k];
    }
  }

  /** The exact paths come first, then the prefixes in order: `/tasks/abc` is Tasks, while `/home`
      only counts exactly, so `/homework` is Page. */
  lemma TitleExamples()
    ensures RouteTitle("/tasks/abc") == "Tasks"
    ensures RouteTitle("/homework") == "Page"
    ensures RouteTitle("/") == "Home"
  {
    assert StartsWith("/tasks/abc", "/tasks") by {
      assert "/tasks/abc"[..6] == "/tasks";
    }
    DiffersAt("/tasks/abc", "/login", 1);
    DiffersAt("/tasks/abc", "/register", 1);
    DiffersAt("/tasks/abc", "/dashboard", 1);
    DiffersAt("/homework", "/login", 1);
    DiffersAt("/homework", "/register", 1);
    DiffersAt("/homework", "/dashboard", 1);
    DiffersAt("/homework", "/tasks", 1);
    DiffersAt("/homework", "/goals", 1);
    DiffersAt("/homework", "/profile", 1);
    DiffersAt("/homework", "/settings", 1);
  }
}
