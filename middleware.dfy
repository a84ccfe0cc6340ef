/** The request gate that runs before every page and API route: public
    paths pass, the issue API needs a session token, and the dashboard
    pages send visitors without one to the login page. */
module Middleware {
  const PUBLIC_PATHS: seq<string> := ["/login", "/api/auth/login"]
  const API_PATHS: seq<string> := ["/api/mongo-issues"]
  const PROTECTED_PATHS: seq<string> := ["/", "/mongo"]

  datatype Outcome =
    | Next
    | Unauthorized(status: int, error: string)
    | Redirect(location: string)

  /** `middleware`: the outcome for a request path, given whether the
      `auth-token` cookie is present. Membership is exact string
      equality. */
  function Gate(path: string, hasToken: bool): (r: Outcome)
    ensures r != Next ==> !hasToken
    ensures r.Unauthorized? ==> r == Unauthorized(401, "Unauthorized") && path in API_PATHS
    ensures r.Redirect? ==> r == Redirect("/login") && path in PROTECTED_PATHS
  {
    if path in PUBLIC_PATHS then Next
    else if path in API_PATHS then
      if !hasToken then Unauthorized(401, "Unauthorized") else Next
    else if path in PROTECTED_PATHS && !hasToken then Redirect("/login")
    else Next
  }

  /** The login page and the login API always pass. */
  lemma PublicPathsPass(path: string, hasToken: bool)
    requires path == "/login" || path == "/api/auth/login"
    ensures Gate(path, hasToken) == Next
  {
  }

  /** The issue API answers 401 without a token and passes with one. */
  lemma ApiNeedsToken(hasToken: bool)
    ensures Gate("/api/mongo-issues", hasToken) == if hasToken then Next else Unauthorized(401, "Unauthorized")
  {
  }

  /** The dashboard pages send a visitor without a token to the login
      page. */
  lemma ProtectedRedirects(path: string)
    requires path == "/" || path == "/mongo"
    ensures Gate(path, false) == Redirect("/login")
  {
  }

  /** A request is stopped exactly when it has no token and its path is
      the issue API or a dashboard page; so with a token everything passes,
      and every other path, such as the comparison API or the upload page,
      passes without one. */
  lemma GateStopsExactly(path: string, hasToken: bool)
    ensures Gate(path, hasToken) != Next <==>
              !hasToken && (path == "/api/mongo-issues" || path == "/" || path == "/mongo")
  {
  }

  lemma OtherPathsPass(hasToken: bool)
    ensures Gate("/api/mongo-issues/compare", hasToken) == Next
    ensures Gate("/upload", hasToken) == Next
  {
    GateStopsExactly("/api/mongo-issues/compare", hasToken);
    GateStopsExactly("/upload", hasToken);
  }
}
