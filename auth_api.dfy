/** The authentication endpoints of api/auth/login.py: `login` writes the five session
    entries after a successful password check, `logout` empties the session, and
    `check_session` reports the session's state after the timeout check. */
module AuthApi {
  import opened Values
  import opened LicenseService
  import opened Sessions

  /** The entries a successful login leaves: the previous ones, overwritten by the user id
      of the user record, the submitted user name, the role `'user'` and two stamps. */
  function LoggedIn(e: map<string, SessionValue>, user: UserInfo, username: Json, now: int): map<string, SessionValue>
  {
    e[UserIdKey := Item(user.userId)][UsernameKey := Item(username)][RoleKey := Item(JStr("user"))]
     [LastActivityKey := Stamp(now)][LoginTimeKey := Stamp(now)]
  }

  /** A fresh login keeps the session alive for exactly `timeout` seconds of idleness. */
  lemma LoginLastsTimeout(e: map<string, SessionValue>, user: UserInfo, username: Json, now: int, later: int, timeout: int)
    ensures WellFormed(LoggedIn(e, user, username, now))
    ensures TimeoutCheck(LoggedIn(e, user, username, now), later, timeout).0 <==> later - now <= timeout
  {
  }

  function UserObject(user: UserInfo, username: Json, preferences: map<string, Json>): Json
  {
    JObj(map["id" := user.userId, "username" := username, "role" := JStr("user"), "name" := user.name,
             "preferences" := JObj(preferences)])
  }

  /** `login()`. `lookup` is the user-table read for the submitted name, `preferences` the
      user's stored preferences (`None` when the read failed or found none) and `now` the
      clock. Missing data is refused with 400 before any lookup; a failed authentication
      answers 401 and writes nothing. */
  method Login(s: Session, body: Body, lookup: Fetch<seq<Record>>, preferences: Option<map<string, Json>>, now: int)
    returns (reply: Reply)
    requires s.Valid()
    modifies s
    ensures s.Valid()
    ensures EmptyBody(body) ==> reply == JsonReply(400, Message(false, "Dati non forniti"))
    ensures !EmptyBody(body) && (!Truthy(GetOr(body.value, "username", JNull)) || !Truthy(GetOr(body.value, "password", JNull))) ==>
      reply == JsonReply(400, Message(false, "Username e password sono richiesti"))
    ensures !(reply.JsonReply? && reply.status == 200) ==> s.entries == old(s.entries)
    ensures reply.JsonReply? && reply.status == 200 <==>
      !EmptyBody(body) && Truthy(GetOr(body.value, "username", JNull)) && Truthy(GetOr(body.value, "password", JNull)) &&
      AuthenticateUser(body.value["password"], lookup).Some?
    ensures reply.JsonReply? && reply.status == 200 ==>
      var user := AuthenticateUser(body.value["password"], lookup).value;
      s.entries == LoggedIn(old(s.entries), user, body.value["username"], now) &&
      reply.body == Message(true, "Login effettuato con successo")
        ["user" := UserObject(user, body.value["username"], if preferences.Some? then preferences.value else map[])]
    ensures (!EmptyBody(body) && Truthy(GetOr(body.value, "username", JNull)) && Truthy(GetOr(body.value, "password", JNull)) &&
             AuthenticateUser(body.value["password"], lookup).None?) ==>
      reply == JsonReply(401, Message(false, "Credenziali non valide"))
  {
    if body == None || body.value == map[] {
      return JsonReply(400, Message(false, "Dati non forniti"));
    }
    var username := GetOr(body.value, "username", JNull);
    var password := GetOr(body.value, "password", JNull);
    if !Truthy(username) || !Truthy(password) {
      return JsonReply(400, Message(false, "Username e password sono richiesti"));
    }
    var found := AuthenticateUser(password, lookup);
    if found.None? {
      return JsonReply(401, Message(false, "Credenziali non valide"));
    }
    var user := found.value;
    s.entries := s.entries[UserIdKey := Item(user.userId)];
    s.entries := s.entries[UsernameKey := Item(username)];
    s.entries := s.entries[RoleKey := Item(JStr("user"))];
    s.entries := s.entries[LastActivityKey := Stamp(now)];
    s.entries := s.entries[LoginTimeKey := Stamp(now)];
    var prefs := if preferences.Some? then preferences.value else map[];
    reply := JsonReply(200, Message(true, "Login effettuato con successo")["user" := UserObject(user, username, prefs)]);
  }

  /** `logout()`: the session is emptied. */
  method Logout(s: Session) returns (reply: Reply)
    modifies s
    ensures s.Valid() && s.entries == map[]
    ensures reply == JsonReply(200, Message(true, "Logout effettuato con successo"))
  {
    s.Clear();
    reply := JsonReply(200, Message(true, "Logout effettuato con successo"));
  }

  function Unauthenticated(message: string): Reply
  {
    JsonReply(401, Message(false, message)["authenticated" := JBool(false)])
  }

  /** `check_session()`: 401 without a user, 401 and a cleared session when the timeout
      check fails, otherwise 200 with the user id, the user name and the role (default
      `'user'`). A session without a user name raises `KeyError`, caught as a 500. */
  method CheckSession(s: Session, now: int, timeout: int) returns (reply: Reply)
    requires s.Valid()
    modifies s
    ensures s.Valid()
    ensures UserIdKey !in old(s.entries) ==>
      reply == Unauthenticated("Sessione non attiva") && s.entries == old(s.entries)
    ensures UserIdKey in old(s.entries) ==> s.entries == TimeoutCheck(old(s.entries), now, timeout).1
    ensures UserIdKey in old(s.entries) && !TimeoutCheck(old(s.entries), now, timeout).0 ==>
      reply == Unauthenticated("Sessione scaduta") && s.entries == map[]
    ensures reply.JsonReply? && reply.status == 200 <==>
      TimeoutCheck(old(s.entries), now, timeout).0 && UsernameKey in old(s.entries)
    ensures UserIdKey in old(s.entries) && TimeoutCheck(old(s.entries), now, timeout).0 && UsernameKey !in old(s.entries) ==>
      reply == JsonReply(500, Message(false, "Errore durante la verifica della sessione: 'username'"))
    ensures reply.JsonReply? && reply.status == 200 ==>
      reply.body == map["success" := JBool(true), "authenticated" := JBool(true),
        "user" := JObj(map["id" := old(s.entries)[UserIdKey].json, "username" := old(s.entries)[UsernameKey].json,
                           "role" := if RoleKey in old(s.entries) then old(s.entries)[RoleKey].json else JStr("user")])]
  {
    if UserIdKey !in s.entries {
      return Unauthenticated("Sessione non attiva");
    }
    var alive := s.CheckTimeout(now, timeout);
    if !alive {
      return Unauthenticated("Sessione scaduta");
    }
    if UsernameKey !in s.entries {
      return JsonReply(500, Message(false, "Errore durante la verifica della sessione: 'username'"));
    }
    var role := if RoleKey in s.entries then s.entries[RoleKey].json else JStr("user");
    reply := JsonReply(200, map["success" := JBool(true), "authenticated" := JBool(true),
      "user" := JObj(map["id" := s.entries[UserIdKey].json, "username" := s.entries[UsernameKey].json, "role" := role])]);
  }
}
