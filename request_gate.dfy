/** The checks app.py makes before handling a request: the `before_request` hook (excluded
    routes, then authentication, then the session timeout) and the file-name test of
    `upload_file`. */
module RequestGate {
  import opened Values
  import opened Sessions

  /** The path prefixes `before_request` lets through without any check. */
  const ExcludedRoutes: seq<string> := ["/login", "/license-error", "/api/auth/login", "/api/auth/check-session", "/static"]

  predicate StartsWith(s: string, prefix: string)
  {
    |prefix| <= |s| && s[..|prefix|] == prefix
  }

  /** `request.endpoint and any(request.path.startswith(route) for route in excluded_routes)`:
      the request matched a route and its path starts with an excluded prefix. */
  predicate Excluded(endpoint: Option<string>, path: string)
  {
    endpoint.Some? && endpoint.value != "" && exists i :: 0 <= i < |ExcludedRoutes| && StartsWith(path, ExcludedRoutes[i])
  }

  function ExpiredRefusal(isJson: bool): Reply
  {
    if isJson then JsonReply(401, Message(false, "Sessione scaduta")["redirect" := JStr("/login")])
    else Redirect("login")
  }

  /** `before_request()`: excluded requests skip every check; otherwise a session without a
      user is refused (and left as it is), and then the timeout check decides, clearing an
      expired session or refreshing the stamp of a live one. */
  method BeforeRequest(s: Session, endpoint: Option<string>, path: string, isJson: bool, now: int, timeout: int)
    returns (g: Gate)
    requires s.Valid()
    modifies s
    ensures s.Valid()
    ensures Excluded(endpoint, path) ==> g == Proceed && s.entries == old(s.entries)
    ensures !Excluded(endpoint, path) && UserIdKey !in old(s.entries) ==>
      g == Deny(LoginRefusal(isJson)) && s.entries == old(s.entries)
    ensures !Excluded(endpoint, path) && UserIdKey in old(s.entries) ==>
      var (alive, after) := TimeoutCheck(old(s.entries), now, timeout);
      s.entries == after && g == (if alive then Proceed else Deny(ExpiredRefusal(isJson)))
  {
    var excluded := false;
    if endpoint.Some? && endpoint.value != "" {
      for i := 0 to |ExcludedRoutes|
        invariant !excluded <==> forall j :: 0 <= j < i ==> !StartsWith(path, ExcludedRoutes[j])
      {
        if StartsWith(path, ExcludedRoutes[i]) {
          excluded := true;
        }
      }
    }
    if excluded {
      return Proceed;
    }
    if UserIdKey !in s.entries {
      return Deny(LoginRefusal(isJson));
    }
    var alive := s.CheckTimeout(now, timeout);
    g := if alive then Proceed else Deny(ExpiredRefusal(isJson));
  }

  /** The exclusion is a prefix test, not a route match: any path that extends an excluded
      prefix is let through, while a request no route matched is checked like any other. */
  lemma ExclusionIsByPrefix(endpoint: string, route: string, rest: string)
    requires endpoint != "" && route in ExcludedRoutes
    ensures Excluded(Some(endpoint), route + rest)
    ensures !Excluded(None, route + rest)
  {
    var i :| 0 <= i < |ExcludedRoutes| && ExcludedRoutes[i] == route;
    assert (route + rest)[..|route|] == route;
  }

  lemma DiffersAt(s: string, prefix: string, k: nat)
    requires k < |s| && k < |prefix| && s[k] != prefix[k]
    ensures !StartsWith(s, prefix)
  {
    if |prefix| <= |s| {
      assert s[..|prefix|][k] == s[k];
    }
  }

  /** The upload route and the logout and license API routes are not excluded: they always
      go through the checks. */
  lemma ProtectedPaths(endpoint: Option<string>)
    ensures !Excluded(endpoint, "/upload")
    ensures !Excluded(endpoint, "/api/licenses/verify")
    ensures !Excluded(endpoint, "/api/auth/logout")
  {
    DiffersAt("/upload", "/login", 1);
    DiffersAt("/upload", "/api/auth/login", 1);
    DiffersAt("/upload", "/api/auth/check-session", 1);
    DiffersAt("/upload", "/static", 1);
    DiffersAt("/api/licenses/verify", "/login", 1);
    DiffersAt("/api/licenses/verify", "/license-error", 1);
    DiffersAt("/api/licenses/verify", "/api/auth/login", 5);
    DiffersAt("/api/licenses/verify", "/api/auth/check-session", 5);
    DiffersAt("/api/licenses/verify", "/static", 1);
    DiffersAt("/api/auth/logout", "/login", 1);
    DiffersAt("/api/auth/logout", "/license-error", 1);
    DiffersAt("/api/auth/logout", "/api/auth/login", 13);
    DiffersAt("/api/auth/logout", "/api/auth/check-session", 10);
    DiffersAt("/api/auth/logout", "/static", 1);
  }

  // ---------------------------------------------------------------------------------------
  // upload_file

  /** ASCII lower-casing, the part of `str.lower` that can produce the letters of `.csv`. */
  function LowerChar(c: char): char
  {
    if 'A' <= c <= 'Z' then (c as int + 32) as char else c
  }

  function Lower(s: string): (r: string)
    ensures |r| == |s| && forall i :: 0 <= i < |s| ==> r[i] == LowerChar(s[i])
  {
    if s == [] then [] else [LowerChar(s[0])] + Lower(s[1..])
  }

  predicate EndsWith(s: string, suffix: string)
  {
    |suffix| <= |s| && s[|s| - |suffix|..] == suffix
  }

  /** What `upload_file` does with the uploaded part, before processing it. */
  datatype UploadDecision = NoFileSelected | NotCsv | Process(filename: string)

  /** `upload_file`'s checks: no `file` part or an empty file name gives "no file selected";
      a name whose lower-cased form ends in `.csv` is processed; anything else is refused. */
  function CheckUpload(filename: Option<string>): UploadDecision
  {
    if filename.None? || filename.value == "" then NoFileSelected
    else if EndsWith(Lower(filename.value), ".csv") then Process(filename.value)
    else NotCsv
  }

  /** A file is processed exactly when the last four characters of its name are a dot and
      `c`, `s`, `v` in either case (the bare name `.csv` included): the test ignores case. */
  lemma UploadAcceptsCsvInAnyCase(name: string)
    ensures CheckUpload(Some(name)).Process? <==>
      |name| >= 4 && name[|name| - 4] == '.' && name[|name| - 3] in "cC" && name[|name| - 2] in "sS" &&
      name[|name| - 1] in "vV"
    ensures CheckUpload(Some(name)).Process? ==> CheckUpload(Some(name)).filename == name
  {
    if |name| >= 4 {
      var low := Lower(name);
      assert low[|low| - 4..] == [low[|name| - 4], low[|name| - 3], low[|name| - 2], low[|name| - 1]];
    }
  }
}
