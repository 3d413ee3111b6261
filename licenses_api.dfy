/** The license endpoints of api/licenses/verify.py, each behind `login_required`: the
    license check for an app, the listing of the user's license records, and the check of
    one feature of the active license. */
module LicensesApi {
  import opened Values
  import opened LicenseService
  import opened Sessions

  /** `Config.APP_NAME` when the environment does not override it. */
  const DefaultAppName := "Estrattore UTM Term"

  /** The app a `/verify` request asks about: `app_name` of the JSON body on POST (an empty
      or missing body counts as `{}`), of the query string on GET, `defaultApp` when absent. */
  function RequestedApp(isPost: bool, body: Body, query: map<string, string>, defaultApp: string): (app: Json)
    ensures isPost && !EmptyBody(body) && "app_name" in body.value ==> app == body.value["app_name"]
    ensures !isPost && "app_name" in query ==> app == JStr(query["app_name"])
    ensures (isPost && (EmptyBody(body) || "app_name" !in body.value)) || (!isPost && "app_name" !in query) ==>
      app == JStr(defaultApp)
  {
    if isPost then
      if body.Some? then GetOr(body.value, "app_name", JStr(defaultApp)) else JStr(defaultApp)
    else if "app_name" in query then JStr(query["app_name"]) else JStr(defaultApp)
  }

  /** `session['username']` on a session without one raises `KeyError('username')`. */
  const MissingUsername := "'username'"

  /** `verify_license()` at `/verify`. `everything` and `forApp` are the license-table
      reads `check_user_license` makes for the session's user and the requested app. */
  method VerifyEndpoint(e: map<string, SessionValue>, isJson: bool, isPost: bool, body: Body, query: map<string, string>,
                        defaultApp: string, everything: Fetch<seq<Record>>, forApp: Fetch<seq<Record>>)
    returns (reply: Reply)
    requires WellFormed(e)
    ensures UserIdKey !in e ==> reply == LoginRefusal(isJson)
    ensures UserIdKey in e && UsernameKey !in e ==> reply == InternalError(MissingUsername)
    ensures UserIdKey in e && UsernameKey in e ==>
      var app := RequestedApp(isPost, body, query, defaultApp);
      if exists l :: l in UserLicenses(e[UserIdKey].json, everything, forApp) && IsActive(l) then
        reply == JsonReply(200, map["success" := JBool(true), "license_active" := JBool(true),
          "message" := JStr("Licenza attiva"),
          "license_info" := JObj(map["app_name" := app, "license_type" := JStr("Standard"), "status" := JStr("Attivo")])])
      else
        reply == JsonReply(403, map["success" := JBool(true), "license_active" := JBool(false),
          "message" := JStr(InactiveMessage), "app_name" := app])
  {
    if UserIdKey !in e {
      return LoginRefusal(isJson);
    }
    var app := RequestedApp(isPost, body, query, defaultApp);
    if UsernameKey !in e {
      return InternalError(MissingUsername);
    }
    var has := CheckUserLicense(e[UserIdKey].json, everything, forApp);
    if has {
      reply := JsonReply(200, map["success" := JBool(true), "license_active" := JBool(true),
        "message" := JStr("Licenza attiva"),
        "license_info" := JObj(map["app_name" := app, "license_type" := JStr("Standard"), "status" := JStr("Attivo")])]);
    } else {
      reply := JsonReply(403, map["success" := JBool(true), "license_active" := JBool(false),
        "message" := JStr(InactiveMessage), "app_name" := app]);
    }
  }

  // ---------------------------------------------------------------------------------------
  // list_user_licenses

  /** The entry `/list` builds for one returned license record, with `''`, `None` and `[]`
      for absent fields. */
  function ListEntry(r: Record): Json
  {
    JObj(map["id" := JStr(r.id), "app_name" := GetOr(r.fields, "Applicazione", JStr("")),
             "status" := GetOr(r.fields, "Stato", JStr("")), "license_type" := GetOr(r.fields, "Tipo_Licenza", JStr("")),
             "expiry_date" := GetOr(r.fields, "Data_Scadenza", JNull),
             "features" := GetOr(r.fields, "Funzionalita_Abilitate", JArr([]))])
  }

  function ListEntries(records: seq<Record>): (entries: seq<Json>)
    ensures |entries| == |records|
    ensures forall i :: 0 <= i < |records| ==> entries[i] == ListEntry(records[i])
  {
    if records == [] then [] else ListEntries(records[..|records| - 1]) + [ListEntry(records[|records| - 1])]
  }

  /** `list_user_licenses()`: one entry per record of the (server-filtered) read, in order,
      and their number; a failed read answers 500. */
  method ListUserLicenses(e: map<string, SessionValue>, isJson: bool, response: Fetch<seq<Record>>)
    returns (reply: Reply)
    requires WellFormed(e)
    ensures UserIdKey !in e ==> reply == LoginRefusal(isJson)
    ensures UserIdKey in e && UsernameKey !in e ==> reply == InternalError(MissingUsername)
    ensures UserIdKey in e && UsernameKey in e && response.Failed? ==>
      reply == JsonReply(500, Message(false, "Errore durante il recupero delle licenze"))
    ensures UserIdKey in e && UsernameKey in e && response.Fetched? ==>
      reply.JsonReply? && reply.status == 200 && reply.body.Keys == {"success", "licenses", "total_count"} &&
      reply.body["success"] == JBool(true) && reply.body["licenses"].JArr? && |reply.body["licenses"].items| == |response.value| &&
      (forall i :: 0 <= i < |response.value| ==> reply.body["licenses"].items[i] == ListEntry(response.value[i])) &&
      reply.body["total_count"] == JInt(|reply.body["licenses"].items|)
  {
    if UserIdKey !in e {
      return LoginRefusal(isJson);
    }
    if UsernameKey !in e {
      return InternalError(MissingUsername);
    }
    if response.Failed? {
      return JsonReply(500, Message(false, "Errore durante il recupero delle licenze"));
    }
    var records := response.value;
    var licenses: seq<Json> := [];
    for i := 0 to |records|
      invariant |licenses| == i
      invariant forall j :: 0 <= j < i ==> licenses[j] == ListEntry(records[j])
    {
      licenses := licenses + [ListEntry(records[i])];
    }
    reply := JsonReply(200, map["success" := JBool(true), "licenses" := JArr(licenses), "total_count" := JInt(|licenses|)]);
  }

  // ---------------------------------------------------------------------------------------
  // check_feature_access

  const FeaturesField := "Funzionalita_Abilitate"

  function InactiveFeatureReply(): Reply
  {
    JsonReply(200, map["success" := JBool(true), "feature_access" := JBool(false), "message" := JStr("Licenza non attiva")])
  }

  function FeatureReply(access: bool, feature: Json, app: Json): Reply
  {
    JsonReply(200, map["success" := JBool(true), "feature_access" := JBool(access), "feature_name" := feature,
                       "app_name" := app])
  }

  /** The checks `check_feature_access` makes before looking at the license. */
  function FeatureRequestError(e: map<string, SessionValue>, isJson: bool, body: Body): Option<Reply>
  {
    if UserIdKey !in e then Some(LoginRefusal(isJson))
    else if EmptyBody(body) then Some(JsonReply(400, Message(false, "Dati non forniti")))
    else if !Truthy(GetOr(body.value, "feature_name", JNull)) then
      Some(JsonReply(400, Message(false, "Nome della funzionalità richiesto")))
    else if UsernameKey !in e then Some(InternalError(MissingUsername))
    else None
  }

  /** `check_feature_access()` as written: the features are looked up with
      `license_data.get('Funzionalita_Abilitate', [])`, but `license_data` is the dict
      `get_user_licenses` built, which has no such key. */
  method CheckFeatureAccess(e: map<string, SessionValue>, isJson: bool, body: Body, defaultApp: string,
                            everything: Fetch<seq<Record>>, forApp: Fetch<seq<Record>>)
    returns (reply: Reply)
    requires WellFormed(e)
    ensures FeatureRequestError(e, isJson, body).Some? ==> reply == FeatureRequestError(e, isJson, body).value
    ensures FeatureRequestError(e, isJson, body).None? ==>
      var v := VerdictOf(UserLicenses(e[UserIdKey].json, everything, forApp));
      reply == if v.Active? then
        FeatureReply(MemberOf(body.value["feature_name"], GetOr(LicenseDict(v.license), FeaturesField, JArr([]))) == Some(true),
                     body.value["feature_name"], GetOr(body.value, "app_name", JStr(defaultApp)))
      else InactiveFeatureReply()
  {
    var refused := FeatureRequestError(e, isJson, body);
    if refused.Some? {
      return refused.value;
    }
    var app := GetOr(body.value, "app_name", JStr(defaultApp));
    var feature := body.value["feature_name"];
    var v := VerifyLicense(e[UserIdKey].json, everything, forApp);
    if !v.Active? {
      return InactiveFeatureReply();
    }
    var enabled := GetOr(LicenseDict(v.license), FeaturesField, JArr([]));
    var access := MemberOf(feature, enabled);
    reply := FeatureReply(access == Some(true), feature, app);
  }

  /** As written, no request is ever granted a feature: the looked-up list is always `[]`. */
  lemma FeatureAccessNeverGranted(l: License, feature: Json)
    ensures FeaturesField !in LicenseDict(l)
    ensures MemberOf(feature, GetOr(LicenseDict(l), FeaturesField, JArr([]))) == Some(false)
  {
  }

  /** The corrected feature check: the list is the license record's own
      `Funzionalita_Abilitate` field; a membership test that raises is caught as a 500. */
  method CheckFeatureAccessFixed(e: map<string, SessionValue>, isJson: bool, body: Body, defaultApp: string,
                                 everything: Fetch<seq<Record>>, forApp: Fetch<seq<Record>>)
    returns (reply: Reply)
    requires WellFormed(e)
    ensures FeatureRequestError(e, isJson, body).Some? ==> reply == FeatureRequestError(e, isJson, body).value
    ensures FeatureRequestError(e, isJson, body).None? ==>
      var v := VerdictOf(UserLicenses(e[UserIdKey].json, everything, forApp));
      var feature := body.value["feature_name"];
      reply == if !v.Active? then InactiveFeatureReply()
        else if MemberOf(feature, v.license.features).None? then
          InternalError(MembershipError(feature, v.license.features))
        else FeatureReply(MemberOf(feature, v.license.features).value, feature, GetOr(body.value, "app_name", JStr(defaultApp)))
    ensures FeatureRequestError(e, isJson, body).None? ==>
      var v := VerdictOf(UserLicenses(e[UserIdKey].json, everything, forApp));
      v.Active? && v.license.features.JArr? ==>
        reply.JsonReply? && reply.status == 200 && "feature_access" in reply.body &&
        reply.body["feature_access"] == JBool(body.value["feature_name"] in v.license.features.items)
  {
    var refused := FeatureRequestError(e, isJson, body);
    if refused.Some? {
      return refused.value;
    }
    var app := GetOr(body.value, "app_name", JStr(defaultApp));
    var feature := body.value["feature_name"];
    var v := VerifyLicense(e[UserIdKey].json, everything, forApp);
    if !v.Active? {
      return InactiveFeatureReply();
    }
    var access := MemberOf(feature, v.license.features);
    if access.None? {
      return InternalError(MembershipError(feature, v.license.features));
    }
    reply := FeatureReply(access.value, feature, app);
  }

  /** One active license record linked to user `"u7"` and enabling `"export"`: the
      as-written check refuses the feature, the corrected one grants it. */
  lemma ExportFeatureWitness()
    ensures var rec := Record("rec1", map["Utente_Collegato" := JArr([JStr("u7")]), "Stato" := JStr("Attivo"),
                                          FeaturesField := JArr([JStr("export")])]);
      var v := VerdictOf(UserLicenses(JStr("u7"), Fetched([]), Fetched([rec])));
      v.Active? &&
      MemberOf(JStr("export"), GetOr(LicenseDict(v.license), FeaturesField, JArr([]))) == Some(false) &&
      MemberOf(JStr("export"), v.license.features) == Some(true)
  {
    var rec := Record("rec1", map["Utente_Collegato" := JArr([JStr("u7")]), "Stato" := JStr("Attivo"),
                                  FeaturesField := JArr([JStr("export")])]);
    assert [rec][..0] == [];
    assert LinkedUsers(rec) == JArr([JStr("u7")]);
    assert JStr("u7") in [JStr("u7")];
    assert Links(JStr("u7"), rec) == Some(true);
    assert LinkedLicenses(JStr("u7"), [rec][..0]) == Some([]);
    assert [] + [LicenseOf(rec)] == [LicenseOf(rec)];
    assert LinkedLicenses(JStr("u7"), [rec]) == Some([LicenseOf(rec)]);
  }
}
