/** The signed-cookie session and the access decorators of api/middleware.py: the session
    is a small map (`user_id`, `username`, `user_role`, `last_activity`, `login_time`),
    `check_session_timeout` either clears it or refreshes `last_activity`, and the
    decorators `login_required`, `license_required` and `admin_required` decide whether a
    request reaches its handler. Time is an integer number of seconds given as input. */
module Sessions {
  import opened Values
  import opened LicenseService

  const UserIdKey := "user_id"
  const UsernameKey := "username"
  const RoleKey := "user_role"
  const LastActivityKey := "last_activity"
  const LoginTimeKey := "login_time"

  /** `Config.SESSION_TIMEOUT`, in seconds. */
  const SessionTimeout := 3600

  /** A session entry: a JSON value, or a timestamp (the ISO text `datetime.now()` gives,
      modelled as seconds). */
  datatype SessionValue = Item(json: Json) | Stamp(seconds: int)

  /** What the code writes: user id, user name and role are JSON values, the last
      activity is a timestamp. */
  predicate WellFormed(e: map<string, SessionValue>)
  {
    (UserIdKey in e ==> e[UserIdKey].Item?) && (UsernameKey in e ==> e[UsernameKey].Item?) &&
    (RoleKey in e ==> e[RoleKey].Item?) && (LastActivityKey in e ==> e[LastActivityKey].Stamp?)
  }

  /** `check_session_timeout()` on the entries `e` at time `now`: whether the session is
      still valid, and the entries afterwards. */
  function TimeoutCheck(e: map<string, SessionValue>, now: int, timeout: int): (r: (bool, map<string, SessionValue>))
    requires WellFormed(e)
  {
    if UserIdKey !in e then (false, e)
    else if LastActivityKey in e && now - e[LastActivityKey].seconds > timeout then (false, map[])
    else (true, e[LastActivityKey := Stamp(now)])
  }

  /** Without a user id nothing changes and the answer is `False`; a session idle for
      strictly more than `timeout` seconds is emptied; otherwise only `last_activity`
      changes, to `now`, and every other entry stays. A session without `last_activity`
      is valid. */
  lemma TimeoutCheckOutcomes(e: map<string, SessionValue>, now: int, timeout: int)
    requires WellFormed(e)
    ensures var (alive, after) := TimeoutCheck(e, now, timeout);
      WellFormed(after) &&
      (UserIdKey !in e ==> !alive && after == e) &&
      (!alive ==> UserIdKey !in after) &&
      (alive <==> UserIdKey in e && (LastActivityKey !in e || now - e[LastActivityKey].seconds <= timeout)) &&
      (alive ==> after.Keys == e.Keys + {LastActivityKey} && after[LastActivityKey] == Stamp(now) &&
                 forall k :: k in e && k != LastActivityKey ==> after[k] == e[k])
  {
  }

  /** Idle for exactly `timeout` seconds is still valid; one second more is expired. */
  lemma TimeoutBoundary(e: map<string, SessionValue>, last: int, timeout: int)
    requires WellFormed(e) && UserIdKey in e && LastActivityKey in e && e[LastActivityKey] == Stamp(last)
    ensures TimeoutCheck(e, last + timeout, timeout).0
    ensures TimeoutCheck(e, last + timeout + 1, timeout) == (false, map[])
  {
  }

  /** An expired session stays out: every later check answers `False` and changes nothing. */
  lemma ExpiredStaysExpired(e: map<string, SessionValue>, now: int, later: int, timeout: int)
    requires WellFormed(e) && !TimeoutCheck(e, now, timeout).0
    ensures TimeoutCheck(TimeoutCheck(e, now, timeout).1, later, timeout) == (false, TimeoutCheck(e, now, timeout).1)
  {
  }

  /** A second check at the same instant is a no-op: the first one refreshed the stamp. */
  lemma RefreshIsIdempotent(e: map<string, SessionValue>, now: int, timeout: int)
    requires WellFormed(e) && timeout >= 0 && TimeoutCheck(e, now, timeout).0
    ensures TimeoutCheck(TimeoutCheck(e, now, timeout).1, now, timeout) == TimeoutCheck(e, now, timeout)
  {
    var after := TimeoutCheck(e, now, timeout).1;
    assert after[LastActivityKey := Stamp(now)] == after;
  }

  /** The session of one browser. */
  class Session {
    var entries: map<string, SessionValue>

    predicate Valid()
      reads this
    {
      WellFormed(entries)
    }

    constructor (initial: map<string, SessionValue>)
      requires WellFormed(initial)
      ensures Valid() && entries == initial
    {
      entries := initial;
    }

    /** `check_session_timeout()`: clears the session when it has been idle for more than
        `timeout` seconds, otherwise stamps it with `now`. */
    method CheckTimeout(now: int, timeout: int) returns (alive: bool)
      requires Valid()
      modifies this
      ensures Valid()
      ensures (alive, entries) == TimeoutCheck(old(entries), now, timeout)
    {
      if UserIdKey in entries {
        if LastActivityKey in entries {
          var last := entries[LastActivityKey].seconds;
          if now - last > timeout {
            entries := map[];
            return false;
          }
        }
        entries := entries[LastActivityKey := Stamp(now)];
        return true;
      }
      return false;
    }

    /** `session.clear()`. */
    method Clear()
      modifies this
      ensures Valid() && entries == map[]
    {
      entries := map[];
    }
  }

  // ---------------------------------------------------------------------------------------
  // Decorators

  /** The refusal of an unauthenticated request: 401 JSON for API calls, a redirect to the
      login page for browsers. */
  function LoginRefusal(isJson: bool): Reply
  {
    if isJson then JsonReply(401, Message(false, "Accesso richiesto")["redirect" := JStr("/login")])
    else Redirect("login")
  }

  /** `login_required`: the handler runs only for a session with a user id. */
  function LoginRequired(e: map<string, SessionValue>, isJson: bool): (g: Gate)
    ensures g.Proceed? <==> UserIdKey in e
    ensures g.Deny? ==> g.reply == LoginRefusal(isJson)
    ensures g.Deny? && isJson ==> g.reply.status == 401
  {
    if UserIdKey !in e then Deny(LoginRefusal(isJson)) else Proceed
  }

  /** `app_name or Config.APP_NAME`: `None` and the empty string fall back to the default. */
  function AppToCheck(appName: Option<string>, defaultApp: string): (app: string)
    ensures appName == None || appName == Some("") ==> app == defaultApp
    ensures appName.Some? && appName.value != "" ==> app == appName.value
  {
    if appName.Some? && appName.value != "" then appName.value else defaultApp
  }

  function LicenseErrorReply(isJson: bool, message: string): Reply
  {
    if isJson then JsonReply(500, Message(false, "Errore durante la verifica della licenza")["error" := JStr(message)])
    else Redirect("license_error")
  }

  function InactiveReply(isJson: bool): Reply
  {
    if isJson then JsonReply(403, Message(false, InactiveMessage)["license_required" := JBool(true)])
    else Redirect("license_error")
  }

  /** `license_required(app_name)`: authentication first, then the verdict of
      `verify_license` for the session's user and the app to check (`verify` stands for the
      remote store's answer). */
  function LicenseRequired(e: map<string, SessionValue>, isJson: bool, appName: Option<string>, defaultApp: string,
                           verify: (Json, string) -> Verdict): Gate
    requires WellFormed(e)
  {
    if UserIdKey !in e then Deny(LoginRefusal(isJson))
    else
      var v := verify(e[UserIdKey].json, AppToCheck(appName, defaultApp));
      if v.LookupError? then Deny(LicenseErrorReply(isJson, v.message))
      else if v.Inactive? then Deny(InactiveReply(isJson))
      else Proceed
  }

  /** The handler runs exactly when the session has a user and the license of the checked
      app is active. Without a user the refusal does not depend on the license store at
      all; a failed lookup (500) is told apart from an inactive license (403). */
  lemma LicenseGateLadder(e: map<string, SessionValue>, isJson: bool, appName: Option<string>, defaultApp: string,
                          verify: (Json, string) -> Verdict, other: (Json, string) -> Verdict)
    requires WellFormed(e)
    ensures LicenseRequired(e, isJson, appName, defaultApp, verify).Proceed? <==>
      UserIdKey in e && verify(e[UserIdKey].json, AppToCheck(appName, defaultApp)).Active?
    ensures UserIdKey !in e ==>
      LicenseRequired(e, isJson, appName, defaultApp, verify) == LicenseRequired(e, isJson, appName, defaultApp, other) ==
      Deny(LoginRefusal(isJson))
    ensures UserIdKey in e && isJson ==>
      var v := verify(e[UserIdKey].json, AppToCheck(appName, defaultApp));
      (v.LookupError? ==> LicenseRequired(e, isJson, appName, defaultApp, verify).reply.status == 500) &&
      (v.Inactive? ==> LicenseRequired(e, isJson, appName, defaultApp, verify).reply.status == 403)
  {
  }

  /** With the service's own `verify_license` behind it the 500 branch cannot happen: the
      service turns every failure into "inactive". */
  lemma ServiceGateNeverReportsLookupError(e: map<string, SessionValue>, isJson: bool, appName: Option<string>,
                                           everything: Fetch<seq<Record>>, forApp: Fetch<seq<Record>>)
    requires WellFormed(e) && UserIdKey in e
    ensures !VerdictOf(UserLicenses(e[UserIdKey].json, everything, forApp)).LookupError?
  {
    CheckAgreesWithVerify(e[UserIdKey].json, everything, forApp);
  }

  function AdminRefusal(isJson: bool): Reply
  {
    if isJson then JsonReply(403, Message(false, "Privilegi di amministratore richiesti"))
    else Redirect("access_denied")
  }

  /** `admin_required`: authentication first, then the role (default `'user'`) must be
      exactly `'admin'`. */
  function AdminRequired(e: map<string, SessionValue>, isJson: bool): (g: Gate)
    ensures g.Proceed? <==> UserIdKey in e && RoleKey in e && e[RoleKey] == Item(JStr("admin"))
    ensures UserIdKey !in e ==> g == Deny(LoginRefusal(isJson))
    ensures UserIdKey in e && !g.Proceed? ==> g == Deny(AdminRefusal(isJson))
  {
    if UserIdKey !in e then Deny(LoginRefusal(isJson))
    else
      var role := if RoleKey in e then e[RoleKey] else Item(JStr("user"));
      if role != Item(JStr("admin")) then Deny(AdminRefusal(isJson)) else Proceed
  }
}
