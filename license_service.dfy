/** The record-store service (`AirtableService` in services/airtable_service.py): password
    check on a fetched user record, the client-side filter that selects a user's licenses
    among the fetched license records, the active-license checks built on it, and the
    patch-or-create update of a user's preferences record.

    The remote store is not modelled: every HTTP read is an input of type `Fetch<...>`, its
    server-side `filterByFormula` already applied, and every write is a success flag. */
module LicenseService {
  import opened Values
  import UrlQuery

  // ---------------------------------------------------------------------------------------
  // authenticate_user

  /** The user dict `authenticate_user` returns. */
  datatype UserInfo = UserInfo(id: string, userId: Json, username: Json, name: Json)

  /** `authenticate_user(username, password)`, given what the lookup of `username` fetched:
      the first fetched record authenticates when `fields.get('password')` equals the
      submitted value (a JSON value, as the request body gave it), so a record without a
      `password` field matches `None`; a failed read is caught and answers `None` like a
      wrong password. */
  function AuthenticateUser(password: Json, lookup: Fetch<seq<Record>>): (r: Option<UserInfo>)
    ensures r.Some? <==>
      lookup.Fetched? && |lookup.value| > 0 &&
      (if "password" in lookup.value[0].fields then lookup.value[0].fields["password"] == password
       else password == JNull)
    ensures r.Some? ==>
      var rec := lookup.value[0];
      r.value == UserInfo(rec.id, GetOr(rec.fields, "user_id", JNull),
                          GetOr(rec.fields, "username", JNull), GetOr(rec.fields, "Name", JNull))
  {
    if lookup.Failed? || lookup.value == [] then None
    else
      var rec := lookup.value[0];
      if GetOr(rec.fields, "password", JNull) == password then
        Some(UserInfo(rec.id, GetOr(rec.fields, "user_id", JNull),
                      GetOr(rec.fields, "username", JNull), GetOr(rec.fields, "Name", JNull)))
      else None
  }

  /** At most one password opens a given user record, and a failed read looks exactly like
      an unknown user. */
  lemma PasswordIsExact(p: Json, q: Json, lookup: Fetch<seq<Record>>)
    requires AuthenticateUser(p, lookup).Some? && AuthenticateUser(q, lookup).Some?
    ensures p == q
    ensures AuthenticateUser(p, Failed) == AuthenticateUser(p, Fetched([])) == None
  {
  }

  /** A truthy password, the only kind the login handler passes on, never opens a record
      that has no `password` field, while `None` opens exactly those. */
  lemma PasswordlessRecords(p: Json, rec: Record, more: seq<Record>)
    requires "password" !in rec.fields
    ensures AuthenticateUser(p, Fetched([rec] + more)).Some? <==> p == JNull
    ensures Truthy(p) ==> AuthenticateUser(p, Fetched([rec] + more)).None?
  {
  }

  // ---------------------------------------------------------------------------------------
  // get_user_licenses

  /** A kept license record: the five values `get_user_licenses` copies into its dict, and
      the record's `Funzionalita_Abilitate` field (`[]` when absent), which that dict does
      not carry (see `LicenseDict`). */
  datatype License = License(id: string, stato: Json, applicazione: Json, username: Json, createdAt: Json,
                             features: Json)

  function LicenseOf(r: Record): License
  {
    License(r.id, GetOr(r.fields, "Stato", JNull), GetOr(r.fields, "Applicazione", JNull),
            GetOr(r.fields, "Username", JNull), GetOr(r.fields, "Data_Creazione", JNull),
            GetOr(r.fields, "Funzionalita_Abilitate", JArr([])))
  }

  /** The dict `get_user_licenses` appends for a kept record. */
  function LicenseDict(l: License): map<string, Json>
  {
    map["id" := JStr(l.id), "stato" := l.stato, "applicazione" := l.applicazione, "username" := l.username,
        "data_creazione" := l.createdAt]
  }

  /** The `Utente_Collegato` field of a license record, `[]` when absent. */
  function LinkedUsers(r: Record): Json
  {
    GetOr(r.fields, "Utente_Collegato", JArr([]))
  }

  /** Python's `needle in hay` on JSON values: list membership, substring test on a string,
      key test on a dict; `None` where Python raises `TypeError` (a non-container, a
      non-string tested against a string, an unhashable key tested against a dict). */
  function MemberOf(needle: Json, hay: Json): Option<bool>
  {
    match hay
    case JArr(items) => Some(needle in items)
    case JStr(s) => if needle.JStr? then Some(UrlQuery.Contains(s, needle.s)) else None
    case JObj(m) => if needle.JArr? || needle.JObj? then None else Some(needle.JStr? && needle.s in m)
    case _ => None
  }

  /** The text of the `TypeError` a `MemberOf` that answers `None` raises. */
  function MembershipError(needle: Json, hay: Json): string
  {
    match hay
    case JStr(_) => "'in <string>' requires string as left operand, not " + TypeName(needle)
    case JObj(_) => "unhashable type: '" + TypeName(needle) + "'"
    case _ => "argument of type '" + TypeName(hay) + "' is not iterable"
  }

  /** Whether record `r` is linked to `userId`: `Some(true)`/`Some(false)`, or `None` when
      the membership test raises. */
  function Links(userId: Json, r: Record): Option<bool>
  {
    MemberOf(userId, LinkedUsers(r))
  }

  /** The client-side filter over the fetched records: the licenses of the records linked to
      `userId`, in fetch order, or `None` when some record's test raises. */
  function LinkedLicenses(userId: Json, records: seq<Record>): (r: Option<seq<License>>)
    decreases |records|
  {
    if records == [] then Some([])
    else
      var last := records[|records| - 1];
      var init := LinkedLicenses(userId, records[..|records| - 1]);
      if init.None? || Links(userId, last).None? then None
      else if Links(userId, last).value then Some(init.value + [LicenseOf(last)])
      else init
  }

  /** `get_user_licenses(user_id, app_name)`: `everything` is the read of the whole license
      table (its content is unused, only its failure matters), `forApp` the read filtered
      on `app_name`. Any failure, including a raising membership test, gives `[]`. */
  function UserLicenses(userId: Json, everything: Fetch<seq<Record>>, forApp: Fetch<seq<Record>>): seq<License>
  {
    if everything.Failed? || forApp.Failed? then []
    else
      var kept := LinkedLicenses(userId, forApp.value);
      if kept.None? then [] else kept.value
  }

  /** Filtering a concatenation filters each part and concatenates, so fetch order is kept;
      a raising record anywhere makes the whole filter raise. */
  lemma {:induction false} LinkedLicensesConcat(userId: Json, a: seq<Record>, b: seq<Record>)
    ensures LinkedLicenses(userId, a + b) ==
      (if LinkedLicenses(userId, a).None? || LinkedLicenses(userId, b).None? then None
       else Some(LinkedLicenses(userId, a).value + LinkedLicenses(userId, b).value))
    decreases |b|
  {
    if b == [] {
      assert a + b == a;
      if LinkedLicenses(userId, a).Some? {
        assert LinkedLicenses(userId, a).value + [] == LinkedLicenses(userId, a).value;
      }
    } else {
      LinkedLicensesConcat(userId, a, b[..|b| - 1]);
      assert (a + b)[..|a + b| - 1] == a + b[..|b| - 1];
      assert (a + b)[|a + b| - 1] == b[|b| - 1];
      if LinkedLicenses(userId, a).Some? && LinkedLicenses(userId, b[..|b| - 1]).Some? &&
         Links(userId, b[|b| - 1]) == Some(true) {
        assert LinkedLicenses(userId, a).value + LinkedLicenses(userId, b[..|b| - 1]).value + [LicenseOf(b[|b| - 1])]
          == LinkedLicenses(userId, a).value + (LinkedLicenses(userId, b[..|b| - 1]).value + [LicenseOf(b[|b| - 1])]);
      }
    }
  }

  /** The filter succeeds exactly when no record's test raises, and then it keeps exactly
      the licenses of the records linked to the user. */
  lemma {:induction false} LinkedLicensesKeepsLinked(userId: Json, records: seq<Record>)
    ensures LinkedLicenses(userId, records).Some? <==> forall i :: 0 <= i < |records| ==> Links(userId, records[i]).Some?
    ensures LinkedLicenses(userId, records).Some? ==>
      forall l :: l in LinkedLicenses(userId, records).value <==>
        exists i :: 0 <= i < |records| && Links(userId, records[i]) == Some(true) && l == LicenseOf(records[i])
    decreases |records|
  {
    if records != [] {
      var init := records[..|records| - 1];
      var last := records[|records| - 1];
      LinkedLicensesKeepsLinked(userId, init);
      assert forall i :: 0 <= i < |init| ==> init[i] == records[i];
      if LinkedLicenses(userId, records).Some? {
        var ls := LinkedLicenses(userId, records).value;
        forall l ensures l in ls <==>
          exists i :: 0 <= i < |records| && Links(userId, records[i]) == Some(true) && l == LicenseOf(records[i])
        {
          if exists i :: 0 <= i < |records| && Links(userId, records[i]) == Some(true) && l == LicenseOf(records[i]) {
            var i :| 0 <= i < |records| && Links(userId, records[i]) == Some(true) && l == LicenseOf(records[i]);
            if i < |init| {
              assert Links(userId, init[i]) == Some(true);
            }
          }
        }
      }
    }
  }

  lemma NoneSticks(userId: Json, records: seq<Record>, n: nat)
    requires n <= |records| && LinkedLicenses(userId, records[..n]).None?
    ensures LinkedLicenses(userId, records).None?
  {
    LinkedLicensesConcat(userId, records[..n], records[n..]);
    assert records[..n] + records[n..] == records;
  }

  /** `get_user_licenses` as the source runs it: an append loop over the fetched records
      that gives up with `[]` on the first failure. */
  method GetUserLicenses(userId: Json, everything: Fetch<seq<Record>>, forApp: Fetch<seq<Record>>)
    returns (licenses: seq<License>)
    ensures licenses == UserLicenses(userId, everything, forApp)
  {
    if everything.Failed? || forApp.Failed? {
      return [];
    }
    var records := forApp.value;
    licenses := [];
    for i := 0 to |records|
      invariant LinkedLicenses(userId, records[..i]) == Some(licenses)
    {
      assert records[..i + 1][..i] == records[..i];
      var linked := MemberOf(userId, LinkedUsers(records[i]));
      if linked.None? {
        NoneSticks(userId, records, i + 1);
        return [];
      }
      if linked.value {
        licenses := licenses + [LicenseOf(records[i])];
      }
    }
    assert records[..|records|] == records;
  }

  // ---------------------------------------------------------------------------------------
  // check_user_license and verify_license

  /** `license.get('stato') == 'Attivo'`. */
  predicate IsActive(l: License)
  {
    l.stato == JStr("Attivo")
  }

  const InactiveMessage := "Licenza non attiva per questa applicazione"

  /** The dict `verify_license` returns: `success: True, license_active: True` with the
      license, `success: True, license_active: False` with a message, or `success: False`
      with the message of an exception. */
  datatype Verdict =
    | Active(license: License)
    | Inactive(message: string)
    | LookupError(message: string)

  /** The verdict on a user's licenses: the first active one, in list order. */
  function VerdictOf(ls: seq<License>): (v: Verdict)
  {
    if ls == [] then Inactive(InactiveMessage)
    else if IsActive(ls[0]) then Active(ls[0])
    else VerdictOf(ls[1..])
  }

  /** The verdict is `Active` exactly when some license is active, and then it carries the
      first active license; otherwise it is `Inactive` with the fixed message, never a
      lookup error. */
  lemma {:induction false} VerdictIsFirstActive(ls: seq<License>)
    ensures VerdictOf(ls).Active? <==> exists l :: l in ls && IsActive(l)
    ensures VerdictOf(ls).Active? ==>
      exists i :: 0 <= i < |ls| && ls[i] == VerdictOf(ls).license && IsActive(ls[i]) &&
        forall j :: 0 <= j < i ==> !IsActive(ls[j])
    ensures !VerdictOf(ls).Active? ==> VerdictOf(ls) == Inactive(InactiveMessage)
    decreases |ls|
  {
    if ls != [] && !IsActive(ls[0]) {
      VerdictIsFirstActive(ls[1..]);
      assert forall l :: l in ls <==> l == ls[0] || l in ls[1..];
      if VerdictOf(ls).Active? {
        var i :| 0 <= i < |ls[1..]| && ls[1..][i] == VerdictOf(ls).license && IsActive(ls[1..][i]) &&
          forall j :: 0 <= j < i ==> !IsActive(ls[1..][j]);
        assert ls[i + 1] == VerdictOf(ls).license;
        assert forall j :: 0 < j < i + 1 ==> ls[j] == ls[1..][j - 1];
      }
    } else if ls != [] {
      assert ls[0] in ls;
    }
  }

  /** `check_user_license`: scan the user's licenses, returning at the first active one. */
  method CheckUserLicense(userId: Json, everything: Fetch<seq<Record>>, forApp: Fetch<seq<Record>>)
    returns (has: bool)
    ensures has <==> exists l :: l in UserLicenses(userId, everything, forApp) && IsActive(l)
  {
    var licenses := GetUserLicenses(userId, everything, forApp);
    for i := 0 to |licenses|
      invariant forall j :: 0 <= j < i ==> !IsActive(licenses[j])
    {
      if licenses[i].stato == JStr("Attivo") {
        assert licenses[i] in licenses;
        return true;
      }
    }
    return false;
  }

  /** `verify_license`: the same scan, answering with the first active license. */
  method VerifyLicense(userId: Json, everything: Fetch<seq<Record>>, forApp: Fetch<seq<Record>>)
    returns (v: Verdict)
    ensures v == VerdictOf(UserLicenses(userId, everything, forApp))
  {
    var licenses := GetUserLicenses(userId, everything, forApp);
    for i := 0 to |licenses|
      invariant VerdictOf(licenses) == VerdictOf(licenses[i..])
    {
      assert licenses[i..][1..] == licenses[i + 1..];
      if licenses[i].stato == JStr("Attivo") {
        return Active(licenses[i]);
      }
    }
    return Inactive(InactiveMessage);
  }

  /** `check_user_license` and `verify_license` agree, and the service never reports a
      lookup error: every failure was already turned into an empty license list. */
  lemma CheckAgreesWithVerify(userId: Json, everything: Fetch<seq<Record>>, forApp: Fetch<seq<Record>>)
    ensures VerdictOf(UserLicenses(userId, everything, forApp)).Active? <==>
      exists l :: l in UserLicenses(userId, everything, forApp) && IsActive(l)
    ensures !VerdictOf(UserLicenses(userId, everything, forApp)).LookupError?
  {
    VerdictIsFirstActive(UserLicenses(userId, everything, forApp));
  }

  // ---------------------------------------------------------------------------------------
  // update_user_preferences

  const ThemeField := "Tema interfaccia"
  const JsonPrefField := "json pref"

  /** The fields `update_user_preferences` writes: the theme read from `tema_interfaccia`
      (`None` when absent) and the JSON text read from `json_pref` (`''` when absent). */
  function PreferenceFields(prefs: map<string, Json>): map<string, Json>
  {
    map[ThemeField := GetOr(prefs, "tema_interfaccia", JNull),
        JsonPrefField := GetOr(prefs, "json_pref", JStr(""))]
  }

  /** Keys other than `tema_interfaccia` and `json_pref` are ignored: without them the
      written theme is `None` and the written JSON text is empty. */
  lemma PreferenceFieldsIgnoreOtherKeys(prefs: map<string, Json>)
    requires "tema_interfaccia" !in prefs && "json_pref" !in prefs
    ensures PreferenceFields(prefs) == map[ThemeField := JNull, JsonPrefField := JStr("")]
  {
  }

  /** `update_user_preferences(user_id, prefs)` on the preferences table `table` (record
      id to fields): whether it answers `True`, and the table afterwards. `lookup` is the
      read of the user's preferences record, `written` whether the PATCH or POST that
      follows succeeded, and `newId` the id the store gives a created record. */
  function AfterUpdate(table: map<string, map<string, Json>>, userId: Json, prefs: map<string, Json>,
                       lookup: Fetch<seq<Record>>, written: bool, newId: string): (r: (bool, map<string, map<string, Json>>))
  {
    if lookup.Failed? || !written then (false, table)
    else if lookup.value != [] then
      var id := lookup.value[0].id;
      (true, table[id := (if id in table then table[id] else map[]) + PreferenceFields(prefs)])
    else (true, table[newId := PreferenceFields(prefs)["Utente" := JArr([userId])]])
  }

  /** The update answers `True` exactly when the lookup and the write succeed, and a failure
      leaves the table as it was. A found record is patched: its other fields are kept and
      the theme and JSON text are set. Otherwise a record is created holding just those two
      fields and the link `Utente = [user_id]`. No other record changes. */
  lemma UpdateOutcomes(table: map<string, map<string, Json>>, userId: Json, prefs: map<string, Json>,
                       lookup: Fetch<seq<Record>>, written: bool, newId: string)
    ensures var (ok, after) := AfterUpdate(table, userId, prefs, lookup, written, newId);
      (ok <==> lookup.Fetched? && written) &&
      (!ok ==> after == table) &&
      (ok ==> var target := if lookup.value != [] then lookup.value[0].id else newId;
        after.Keys == table.Keys + {target} &&
        (forall id :: id in table && id != target ==> after[id] == table[id]) &&
        after[target][ThemeField] == GetOr(prefs, "tema_interfaccia", JNull) &&
        after[target][JsonPrefField] == GetOr(prefs, "json_pref", JStr("")) &&
        (lookup.value != [] ==>
           forall f :: target in table && f in table[target] && f != ThemeField && f != JsonPrefField ==>
             f in after[target] && after[target][f] == table[target][f]) &&
        (lookup.value == [] ==>
           after[target].Keys == {ThemeField, JsonPrefField, "Utente"} && after[target]["Utente"] == JArr([userId])))
  {
    if lookup.Fetched? && written {
      if lookup.value != [] {
        var id := lookup.value[0].id;
        PatchOutcome(table, id, if id in table then table[id] else map[], prefs);
      } else {
        CreateOutcome(table, newId, userId, prefs);
      }
    }
  }

  lemma PatchOutcome(table: map<string, map<string, Json>>, id: string, existing: map<string, Json>, prefs: map<string, Json>)
    requires existing == (if id in table then table[id] else map[])
    ensures var after := table[id := existing + PreferenceFields(prefs)];
      after.Keys == table.Keys + {id} &&
      (forall other :: other in table && other != id ==> after[other] == table[other]) &&
      after[id][ThemeField] == GetOr(prefs, "tema_interfaccia", JNull) &&
      after[id][JsonPrefField] == GetOr(prefs, "json_pref", JStr("")) &&
      forall f :: id in table && f in table[id] && f != ThemeField && f != JsonPrefField ==>
        f in after[id] && after[id][f] == table[id][f]
  {
  }

  lemma CreateOutcome(table: map<string, map<string, Json>>, id: string, userId: Json, prefs: map<string, Json>)
    ensures var after := table[id := PreferenceFields(prefs)["Utente" := JArr([userId])]];
      after.Keys == table.Keys + {id} &&
      (forall other :: other in table && other != id ==> after[other] == table[other]) &&
      after[id][ThemeField] == GetOr(prefs, "tema_interfaccia", JNull) &&
      after[id][JsonPrefField] == GetOr(prefs, "json_pref", JStr("")) &&
      after[id].Keys == {ThemeField, JsonPrefField, "Utente"} && after[id]["Utente"] == JArr([userId])
  {
    assert ThemeField != "Utente" && JsonPrefField != "Utente";
  }

  /** The remote preferences table: record id to fields. */
  class PreferenceTable {
    var records: map<string, map<string, Json>>

    constructor (initial: map<string, map<string, Json>>)
      ensures records == initial
    {
      records := initial;
    }

    /** `update_user_preferences(user_id, prefs)`: patch the user's record if the lookup
        found one, create it otherwise; any failure answers `False`. */
    method Update(userId: Json, prefs: map<string, Json>, lookup: Fetch<seq<Record>>, written: bool, newId: string)
      returns (ok: bool)
      modifies this
      ensures (ok, records) == AfterUpdate(old(records), userId, prefs, lookup, written, newId)
    {
      if lookup.Failed? {
        return false;
      }
      if !written {
        return false;
      }
      if lookup.value != [] {
        var id := lookup.value[0].id;
        var existing := if id in records then records[id] else map[];
        records := records[id := existing + PreferenceFields(prefs)];
      } else {
        records := records[newId := PreferenceFields(prefs)["Utente" := JArr([userId])]];
      }
      return true;
    }
  }
}
