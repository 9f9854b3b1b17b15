/**
 * filter/AuthenticationFilter.java: which requests reach the application. Public pages pass;
 * the rest need a logged-in user, and pages under "/admin" an administrator.
 */
module Access {
  import opened Wrappers
  import opened Text

  /** Paths that pass without a login when the request path starts with them. */
  const PUBLIC_PREFIXES: seq<string> := ["/login", "/register", "/css/", "/js/", "/images/"]
  /** Paths that pass without a login when the request path is exactly one of them. */
  const PUBLIC_PAGES: seq<string> := ["/", "/login.jsp", "/register.jsp"]
  const ADMIN_PREFIX: string := "/admin"
  const LOGIN_PAGE: string := "/login"

  /** What the filter does with a request. */
  datatype Decision =
    | Pass                        // chain.doFilter, once
    | Redirect(location: string)  // sendRedirect; the chain is not invoked
    | Forbidden                   // sendError(403); the chain is not invoked

  /** The session's user, as far as the filter reads it. */
  datatype SessionUser = SessionUser(isAdmin: bool)

  /**
   * The request path: the URI without as many leading characters as the context path has.
   * None where `substring` throws, a context path longer than the URI.
   */
  function RequestPath(uri: string, contextPath: string): (r: Option<string>)
    ensures r.Some? <==> |contextPath| <= |uri|
    ensures r.Some? && StartsWith(uri, contextPath) ==> uri == contextPath + r.value
  {
    if |contextPath| <= |uri| then Some(uri[|contextPath|..]) else None
  }

  /** isPublicResource: one of the three pages, or under one of the five public prefixes. */
  predicate IsPublicResource(path: string)
  {
    path in PUBLIC_PAGES || exists k :: 0 <= k < |PUBLIC_PREFIXES| && StartsWith(path, PUBLIC_PREFIXES[k])
  }

  /**
   * doFilter: a public path passes; otherwise no user is sent to the login page, a
   * non-administrator asking for an admin path is refused, and everything else passes.
   * `user` is None when there is no session or it holds no user. None where the path
   * cannot be computed.
   */
  function Filter(uri: string, contextPath: string, user: Option<SessionUser>): (r: Option<Decision>)
    ensures r.None? <==> RequestPath(uri, contextPath).None?
  {
    match RequestPath(uri, contextPath)
    case None => None
    case Some(path) =>
      if IsPublicResource(path) then Some(Pass)
      else if user.None? then Some(Redirect(contextPath + LOGIN_PAGE))
      else if StartsWith(path, ADMIN_PREFIX) && !user.value.isAdmin then Some(Forbidden)
      else Some(Pass)
  }

  /**
   * The decision in full: public paths pass whatever the session; a request is redirected
   * to the login page exactly when its path is not public and no one is logged in; it is
   * refused exactly when a non-administrator asks for a non-public admin path.
   */
  lemma FilterDecides(uri: string, contextPath: string, user: Option<SessionUser>)
    requires |contextPath| <= |uri|
    ensures var path := uri[|contextPath|..];
            var d := Filter(uri, contextPath, user).value;
            (IsPublicResource(path) ==> d == Pass) &&
            (d.Redirect? <==> !IsPublicResource(path) && user.None?) &&
            (d.Redirect? ==> d.location == contextPath + LOGIN_PAGE) &&
            (d == Forbidden <==>
               !IsPublicResource(path) && user.Some? && !user.value.isAdmin && StartsWith(path, ADMIN_PREFIX))
  {
  }

  /** An administrator is never refused, and a logged-in user only on admin paths. */
  lemma AdminNeverForbidden(uri: string, contextPath: string, user: SessionUser)
    ensures Filter(uri, contextPath, Some(user)) != Some(Redirect(contextPath + LOGIN_PAGE))
    ensures user.isAdmin ==> Filter(uri, contextPath, Some(user)) != Some(Forbidden)
  {
  }

  /** The login page, the stylesheets and the root pass; an admin page does not without a login. */
  lemma PublicExamples()
    ensures IsPublicResource("/") && IsPublicResource("/login") && IsPublicResource("/css/site.css")
    ensures IsPublicResource("/login.jsp") && IsPublicResource("/loginHelp")
    ensures !IsPublicResource("/admin") && !IsPublicResource("/status")
  {
    assert StartsWith("/login", PUBLIC_PREFIXES[0]);
    assert StartsWith("/css/site.css", PUBLIC_PREFIXES[2]);
    assert StartsWith("/loginHelp", PUBLIC_PREFIXES[0]);
    assert StartsWith("/login.jsp", PUBLIC_PREFIXES[0]);
    forall k | 0 <= k < |PUBLIC_PREFIXES| ensures !StartsWith("/admin", PUBLIC_PREFIXES[k]) {
      assert "/admin"[1] == 'a';
    }
    forall k | 0 <= k < |PUBLIC_PREFIXES| ensures !StartsWith("/status", PUBLIC_PREFIXES[k]) {
      assert "/status"[1] == 's';
    }
  }
}
