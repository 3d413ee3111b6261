/** The profile endpoints of api/users/profile.py, each behind `login_required`: reading the
    profile, updating the allowed profile fields, and updating the interface preferences
    through the record-store service. */
module ProfileApi {
  import opened Values
  import opened LicenseService
  import opened Sessions
  import RequestGate
  import LicensesApi

  /** The common refusals before a handler's own checks: no user, then (for handlers that
      read a body) an empty body, then a session without a user name. */
  function HandlerRefusal(e: map<string, SessionValue>, isJson: bool, body: Option<Body>): Option<Reply>
  {
    if UserIdKey !in e then Some(LoginRefusal(isJson))
    else if body.Some? && EmptyBody(body.value) then Some(JsonReply(400, Message(false, "Dati non forniti")))
    else if UsernameKey !in e then Some(InternalError(LicensesApi.MissingUsername))
    else None
  }

  // ---------------------------------------------------------------------------------------
  // get_profile

  /** The dict `get_user_profile` returns for the fetched user record. */
  function ProfileOf(r: Record): map<string, Json>
  {
    map["id" := JStr(r.id), "user_id" := GetOr(r.fields, "user_id", JNull), "username" := GetOr(r.fields, "username", JNull),
        "name" := GetOr(r.fields, "Name", JNull), "incrementale" := GetOr(r.fields, "Incrementale", JNull)]
  }

  /** `get_profile()`. `profile` is the read of the session user's record and
      `preferences` the user's stored preferences (`None` when none were found). A failed
      read answers 404. The `''` defaults of the reply never apply: the profile dict always
      holds its keys, so an absent record field shows as `None`. */
  function GetProfile(e: map<string, SessionValue>, isJson: bool, profile: Fetch<Record>,
                      preferences: Option<map<string, Json>>): (reply: Reply)
    requires WellFormed(e)
    ensures HandlerRefusal(e, isJson, None).None? && profile.Failed? ==>
      reply == JsonReply(404, Message(false, "Profilo utente non trovato"))
    ensures HandlerRefusal(e, isJson, None).None? && profile.Fetched? ==>
      var f := profile.value.fields;
      reply.JsonReply? && reply.status == 200 && "profile" in reply.body && reply.body["profile"].JObj? &&
      reply.body["profile"].members == map["id" := e[UserIdKey].json, "username" := GetOr(f, "username", JNull),
        "name" := GetOr(f, "Name", JNull), "user_id" := GetOr(f, "user_id", JNull),
        "incrementale" := GetOr(f, "Incrementale", JNull),
        "preferences" := JObj(if preferences.Some? then preferences.value else map[])]
  {
    var refused := HandlerRefusal(e, isJson, None);
    if refused.Some? then refused.value
    else if profile.Failed? then JsonReply(404, Message(false, "Profilo utente non trovato"))
    else
      var data := ProfileOf(profile.value);
      JsonReply(200, map["success" := JBool(true), "profile" := JObj(map[
        "id" := e[UserIdKey].json, "username" := GetOr(data, "username", JStr("")), "name" := GetOr(data, "name", JStr("")),
        "user_id" := GetOr(data, "user_id", JStr("")), "incrementale" := GetOr(data, "incrementale", JStr("")),
        "preferences" := JObj(if preferences.Some? then preferences.value else map[])])])
  }

  // ---------------------------------------------------------------------------------------
  // update_profile

  /** The fields a user may change on their own record. */
  const UpdatableFields: seq<string> := ["Email", "Nome", "Cognome"]

  /** The fields of `fields` whose lower-cased name is a key of the body, in order. */
  function CopiedFields(fields: seq<string>, data: map<string, Json>): seq<string>
  {
    if fields == [] then []
    else
      var last := fields[|fields| - 1];
      CopiedFields(fields[..|fields| - 1], data) + (if RequestGate.Lower(last) in data then [last] else [])
  }

  lemma LowerOfUpdatableFields()
    ensures RequestGate.Lower("Email") == "email"
    ensures RequestGate.Lower("Nome") == "nome"
    ensures RequestGate.Lower("Cognome") == "cognome"
  {
    LowerIs("Email", "email");
    LowerIs("Nome", "nome");
    LowerIs("Cognome", "cognome");
  }

  lemma LowerIs(s: string, t: string)
    requires |s| == |t| && forall i :: 0 <= i < |s| ==> RequestGate.LowerChar(s[i]) == t[i]
    ensures RequestGate.Lower(s) == t
  {
  }

  /** The payload sent to the store: each copied field with the body's value under its
      lower-case name. */
  function Payload(fields: seq<string>, data: map<string, Json>): (p: map<string, Json>)
    ensures forall f :: f in p <==> f in fields && RequestGate.Lower(f) in data
    ensures forall f :: f in p ==> p[f] == data[RequestGate.Lower(f)]
  {
    if fields == [] then map[]
    else
      var last := fields[|fields| - 1];
      var init := Payload(fields[..|fields| - 1], data);
      assert forall f :: f in fields <==> f in fields[..|fields| - 1] || f == last;
      if RequestGate.Lower(last) in data then init[last := data[RequestGate.Lower(last)]] else init
  }

  function Strings(names: seq<string>): (items: seq<Json>)
    ensures |items| == |names| && forall i :: 0 <= i < |names| ==> items[i] == JStr(names[i])
  {
    if names == [] then [] else Strings(names[..|names| - 1]) + [JStr(names[|names| - 1])]
  }

  /** The loop of `update_profile` that fills `update_data`: for each allowed field, in
      order, copy the body's value under the field's lower-case name. */
  method CopyAllowed(fields: seq<string>, data: map<string, Json>) returns (keys: seq<string>, update: map<string, Json>)
    ensures keys == CopiedFields(fields, data)
    ensures update == Payload(fields, data)
  {
    update, keys := map[], [];
    for i := 0 to |fields|
      invariant keys == CopiedFields(fields[..i], data)
      invariant update == Payload(fields[..i], data)
    {
      assert fields[..i + 1][..i] == fields[..i];
      var field := fields[i];
      if RequestGate.Lower(field) in data {
        update := update[field := data[RequestGate.Lower(field)]];
        keys := keys + [field];
      }
    }
    assert fields[..|fields|] == fields;
  }

  /** `update_profile()`. `patchOk` is whether the store answered the PATCH with 200; `sent`
      is the payload of that PATCH, `None` when no call is made. Only `Email`, `Nome` and
      `Cognome` are sent, read from `email`, `nome` and `cognome`; a body with none of them
      answers 400 without any call. */
  method UpdateProfile(e: map<string, SessionValue>, isJson: bool, body: Body, patchOk: bool)
    returns (reply: Reply, sent: Option<map<string, Json>>)
    requires WellFormed(e)
    ensures HandlerRefusal(e, isJson, Some(body)).Some? ==>
      reply == HandlerRefusal(e, isJson, Some(body)).value && sent == None
    ensures HandlerRefusal(e, isJson, Some(body)).None? ==>
      (sent == None <==> CopiedFields(UpdatableFields, body.value) == []) &&
      (sent == None ==> reply == JsonReply(400, Message(false, "Nessun campo valido da aggiornare"))) &&
      (sent.Some? ==> sent.value == Payload(UpdatableFields, body.value)) &&
      (sent.Some? && patchOk ==> reply == JsonReply(200, Message(true, "Profilo aggiornato con successo")
        ["updated_fields" := JArr(Strings(CopiedFields(UpdatableFields, body.value)))])) &&
      (sent.Some? && !patchOk ==> reply == JsonReply(500, Message(false, "Errore durante l'aggiornamento del profilo")))
  {
    sent := None;
    var refused := HandlerRefusal(e, isJson, Some(body));
    if refused.Some? {
      return refused.value, None;
    }
    var keys, update := CopyAllowed(UpdatableFields, body.value);
    if keys == [] {
      return JsonReply(400, Message(false, "Nessun campo valido da aggiornare")), None;
    }
    sent := Some(update);
    if patchOk {
      reply := JsonReply(200, Message(true, "Profilo aggiornato con successo")["updated_fields" := JArr(Strings(keys))]);
    } else {
      reply := JsonReply(500, Message(false, "Errore durante l'aggiornamento del profilo"));
    }
  }

  /** The profile update copies `Email`, `Nome` and `Cognome`, in that order, each exactly
      when the body has its lower-case name, and sends exactly those fields. */
  lemma ProfileUpdateAllowList(data: map<string, Json>)
    ensures CopiedFields(UpdatableFields, data) ==
      (if "email" in data then ["Email"] else []) + (if "nome" in data then ["Nome"] else []) +
      (if "cognome" in data then ["Cognome"] else [])
    ensures forall f :: f in Payload(UpdatableFields, data) <==>
      (f == "Email" && "email" in data) || (f == "Nome" && "nome" in data) || (f == "Cognome" && "cognome" in data)
  {
    LowerOfUpdatableFields();
    CopiedThree("Email", "Nome", "Cognome", data);
    PayloadThree("Email", "Nome", "Cognome", data);
  }

  lemma CopiedThree(a: string, b: string, c: string, data: map<string, Json>)
    ensures CopiedFields([a, b, c], data) ==
      (if RequestGate.Lower(a) in data then [a] else []) + (if RequestGate.Lower(b) in data then [b] else []) +
      (if RequestGate.Lower(c) in data then [c] else [])
  {
    CopiedFieldsSnoc([], a, data);
    CopiedFieldsSnoc([a], b, data);
    CopiedFieldsSnoc([a, b], c, data);
    assert [] + [a] == [a] && [a] + [b] == [a, b] && [a, b] + [c] == [a, b, c];
  }

  lemma CopiedFieldsSnoc(fields: seq<string>, f: string, data: map<string, Json>)
    ensures CopiedFields(fields + [f], data) ==
      CopiedFields(fields, data) + (if RequestGate.Lower(f) in data then [f] else [])
  {
    assert (fields + [f])[..|fields|] == fields;
  }

  lemma PayloadThree(a: string, b: string, c: string, data: map<string, Json>)
    ensures forall f :: f in Payload([a, b, c], data) <==>
      (f == a && RequestGate.Lower(a) in data) || (f == b && RequestGate.Lower(b) in data) ||
      (f == c && RequestGate.Lower(c) in data)
  {
  }

  // ---------------------------------------------------------------------------------------
  // update_preferences

  const ThemeKey := "theme"
  const JsonPrefsKey := "json_prefs"

  /** The checks `update_preferences` makes before any write. `parses` stands for
      `json.loads` succeeding on a string; a non-string `json_prefs` makes `json.loads`
      raise `TypeError`, which the catch-all turns into a 500. */
  function PreferenceRequestError(e: map<string, SessionValue>, isJson: bool, body: Body, parses: string -> bool)
    : Option<Reply>
  {
    var refused := HandlerRefusal(e, isJson, Some(body));
    if refused.Some? then refused
    else if JsonPrefsKey in body.value && !body.value[JsonPrefsKey].JStr? then
      Some(InternalError("the JSON object must be str, bytes or bytearray, not " + TypeName(body.value[JsonPrefsKey])))
    else if JsonPrefsKey in body.value && !parses(body.value[JsonPrefsKey].s) then
      Some(JsonReply(400, Message(false, "Formato JSON non valido per le preferenze")))
    else if ThemeKey !in body.value && JsonPrefsKey !in body.value then
      Some(JsonReply(400, Message(false, "Nessuna preferenza valida da aggiornare")))
    else None
  }

  /** The dict the handler hands to the service, as written: under the request's own keys
      `theme` and `json_prefs`. */
  function ServicePrefs(data: map<string, Json>): map<string, Json>
  {
    var withTheme := if ThemeKey in data then map[ThemeKey := data[ThemeKey]] else map[];
    if JsonPrefsKey in data then withTheme[JsonPrefsKey := data[JsonPrefsKey]] else withTheme
  }

  /** The corrected dict: under the keys the service reads, `tema_interfaccia` and
      `json_pref`. */
  function ServicePrefsFixed(data: map<string, Json>): map<string, Json>
  {
    var withTheme := if ThemeKey in data then map["tema_interfaccia" := data[ThemeKey]] else map[];
    if JsonPrefsKey in data then withTheme["json_pref" := data[JsonPrefsKey]] else withTheme
  }

  function Saved(ok: bool): Reply
  {
    if ok then JsonReply(200, Message(true, "Preferenze aggiornate con successo"))
    else JsonReply(500, Message(false, "Errore durante l'aggiornamento delle preferenze"))
  }

  /** `update_preferences()` as written: after the checks, the service is called with
      `ServicePrefs`, which it does not understand. */
  method UpdatePreferences(e: map<string, SessionValue>, isJson: bool, body: Body, parses: string -> bool,
                           table: PreferenceTable, lookup: Fetch<seq<Record>>, written: bool, newId: string)
    returns (reply: Reply)
    requires WellFormed(e)
    modifies table
    ensures PreferenceRequestError(e, isJson, body, parses).Some? ==>
      reply == PreferenceRequestError(e, isJson, body, parses).value && table.records == old(table.records)
    ensures PreferenceRequestError(e, isJson, body, parses).None? ==>
      var (ok, after) := AfterUpdate(old(table.records), e[UserIdKey].json, ServicePrefs(body.value), lookup, written, newId);
      reply == Saved(ok) && table.records == after
  {
    var refused := PreferenceRequestError(e, isJson, body, parses);
    if refused.Some? {
      return refused.value;
    }
    var ok := table.Update(e[UserIdKey].json, ServicePrefs(body.value), lookup, written, newId);
    reply := Saved(ok);
  }

  /** The corrected `update_preferences()`: the same checks, then the service is called
      with `ServicePrefsFixed`. */
  method UpdatePreferencesFixed(e: map<string, SessionValue>, isJson: bool, body: Body, parses: string -> bool,
                                table: PreferenceTable, lookup: Fetch<seq<Record>>, written: bool, newId: string)
    returns (reply: Reply)
    requires WellFormed(e)
    modifies table
    ensures PreferenceRequestError(e, isJson, body, parses).Some? ==>
      reply == PreferenceRequestError(e, isJson, body, parses).value && table.records == old(table.records)
    ensures PreferenceRequestError(e, isJson, body, parses).None? ==>
      var (ok, after) := AfterUpdate(old(table.records), e[UserIdKey].json, ServicePrefsFixed(body.value), lookup, written, newId);
      reply == Saved(ok) && table.records == after
  {
    var refused := PreferenceRequestError(e, isJson, body, parses);
    if refused.Some? {
      return refused.value;
    }
    var ok := table.Update(e[UserIdKey].json, ServicePrefsFixed(body.value), lookup, written, newId);
    reply := Saved(ok);
  }

  /** As written, whatever the request asked for, the stored theme is `None` and the stored
      JSON text is empty. */
  lemma PreferencesLostAsWritten(data: map<string, Json>)
    ensures PreferenceFields(ServicePrefs(data)) == map[ThemeField := JNull, JsonPrefField := JStr("")]
  {
    PreferenceFieldsIgnoreOtherKeys(ServicePrefs(data));
  }

  /** With the correction the stored theme and JSON text are the ones the request gave
      (`None` and `''` for the one it left out). */
  lemma PreferencesStoredFixed(data: map<string, Json>)
    ensures PreferenceFields(ServicePrefsFixed(data)) ==
      map[ThemeField := GetOr(data, ThemeKey, JNull), JsonPrefField := GetOr(data, JsonPrefsKey, JStr(""))]
  {
  }

  /** A request setting the theme `"dark"`: the as-written handler stores `None`, the
      corrected one stores `"dark"`. */
  lemma DarkThemeWitness()
    ensures PreferenceFields(ServicePrefs(map[ThemeKey := JStr("dark")]))[ThemeField] == JNull
    ensures PreferenceFields(ServicePrefsFixed(map[ThemeKey := JStr("dark")]))[ThemeField] == JStr("dark")
  {
    PreferencesLostAsWritten(map[ThemeKey := JStr("dark")]);
  }
}
