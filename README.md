# AnalizzatoreUTMTerm in Dafny

A model of the Flask application AnalizzatoreUTMTerm and its companion script. The
application attributes leads to Facebook ads through the `utm_term` of their landing URL,
and it controls access with a session login and per-application licenses kept in a remote
record store. The model covers three parts.

- **The lead-attribution pipeline** (`app.py`, `extract_utm_term.py`).
  - Query extraction: the query component that CPython's `urlsplit` reports, with its
    error for unbalanced brackets (its two other checks of the network location are left
    out), read by `parse_qsl` with `application/x-www-form-urlencoded` decoding (modules
    `UrlQuery`, `FormDecoding`, `UtmExtract`).
  - `process_csv`, the analysis the routes use (`LeadReport`).
  - `process_csv_file` and the script's `main`, which rank terms with a stable sort
    (`RankedReport`, `StableSort`).
  - `collections.Counter` and `most_common` (`Tally`).
- **The session and its gates** (`api/middleware.py`, `api/auth/login.py`, `app.py`'s
  `before_request`).
  - The session is a `Session` object whose entry map the timeout check, login and logout
    update in place (`Sessions`, `AuthApi`, `RequestGate`).
  - The decorators are pure decision ladders that either let a request through or answer it.
- **Licenses, profile and preferences** (`services/airtable_service.py`,
  `api/licenses/verify.py`, `api/users/profile.py`).
  - Password check, client-side license filter, first-active-license verdict
    (`LicenseService`).
  - The preferences table as an object updated in place (`LicenseService.PreferenceTable`).
  - The validation ladders of the license, profile and preferences endpoints
    (`LicensesApi`, `ProfileApi`).

Conventions of the model:

- JSON values, replies and records are datatypes (`Values`).
- Every read of the remote store is an input, `Fetched(records)` or `Failed`; every write is
  an input flag telling whether the store accepted it.
- The clock is an integer number of seconds given as input.
- A handler's catch-all `except Exception` becomes a 500 reply that carries the exception's
  text (`Values.InternalError`).
- A remote call that fails is a `Failed` read or a refused write, and the handler answers
  as it does for a non-200 response. The text of a network exception is not modelled (see
  "## Left out").

Three defects of the code are modelled as written and, next to that, as evidently intended
(see "## Findings"). Where the application's documentation and its code disagree, the
model follows the code. For example, the extractors of `app.py` and two of the script
never return a value, because `pandas` is not imported. The model keeps that outcome, and
it proves the aggregation separately with working extractors.

## Model

| member | source | states |
|---|---|---|
| FormDecoding.HexValue | app.py:51 | a hex digit of a `%XX` escape has a value below 16 |
| FormDecoding.SequenceLength | app.py:51 | a UTF-8 lead byte announces at most four bytes (0 for an invalid lead) |
| FormDecoding.ValidPrefix | app.py:51 | the longest well-formed part of a UTF-8 sequence stops exactly at the first bad continuation byte |
| FormDecoding.AsciiRun | app.py:51 | the ASCII run at the head of a string is as long as possible |
| FormDecoding.DecodePlainIsIdentity | app.py:51 | a query name or value without `%` or `+` decodes to itself |
| FormDecoding.UnquoteToBytesPlain | app.py:51 | without escapes, an ASCII run's bytes are its character codes |
| FormDecoding.Utf8DecodeAscii | app.py:51 | bytes below 0x80 decode one character each, to themselves |
| FormDecoding.UnquoteShortcutAgrees | app.py:51 | `unquote`'s shortcut for strings without `%` gives what its general path gives |
| FormDecoding.DecodeNonEmpty | app.py:51 | decoding never turns a non-empty value into an empty one |
| UrlQuery.Find | app.py:50 | `str.find`: -1 exactly when the character is absent, otherwise its first position |
| UrlQuery.SplitOn | app.py:51 | `str.split` always yields at least one piece |
| UrlQuery.LStrip | app.py:50 | `urlsplit` strips exactly the leading C0 controls and spaces |
| UrlQuery.RemoveUnsafe | app.py:50 | no tab, CR or LF is left, and no other character is added |
| UrlQuery.AfterScheme | app.py:50 | the scheme `urlsplit` removes never contains `?` or `#` |
| UrlQuery.NetlocEnd | app.py:50 | the network location ends at the first `/`, `?` or `#` after `//` |
| UrlQuery.PairsOf | app.py:51 | `parse_qsl` keeps at most one pair per `&`-separated piece |
| UrlQuery.FirstValueIsEarliest | app.py:52 | `parse_qs(...).get(key, [None])[0]` is the value of the earliest pair with that name, and is absent exactly when no pair has it |
| UrlQuery.FirstValueNonEmpty | app.py:52 | the value found for a parameter is never blank, because pairs with empty values are dropped |
| UrlQuery.QueryComponentSkipsPrefix | app.py:50 | text before the URL's first `?` or `#` does not affect the query |
| UrlQuery.RemoveUnsafeAppend | app.py:50 | removing tabs and newlines distributes over concatenation |
| UrlQuery.StrippedQueryComponent | app.py:50 | stripping leading blanks never changes the query |
| UrlQuery.CleanedQueryIsQueryComponent | app.py:50 | after the scheme and network location, the query `urlsplit` reports is the text between the first `?` and the first `#` |
| UrlQuery.SplitQueryIsQueryComponent | app.py:50 | when `urlparse` does not raise, its `.query` is the query component of section 3.4 of RFC 3986 of the cleaned URL |
| UtmExtract.ExtractParamIsFirstValue | app.py:44-55 | the intended extractor: `None` when parsing raises; otherwise the non-blank decoded value of the earliest pair with the parameter's name, and `None` exactly when no pair has that name |
| UtmExtract.ScriptExtractorAgrees | extract_utm_term.py:6-20 | the script's term extractor, with its extra guard for an empty URL, returns what the intended `app.py` extractor returns |
| UtmExtract.NoBracketsNoRaise | app.py:50 | an all-ASCII URL without `[` or `]` never makes `urlsplit` raise |
| UtmExtract.TwoPlainPairs | app.py:51 | two plain `name=value` pieces joined by `&` parse to exactly those two pairs, in order |
| UtmExtract.TwoPairs | app.py:51 | the query `utm_term=X&utm_content=Y` with plain values parses to exactly those two pairs |
| UtmExtract.QueryAfterPlainBase | app.py:50 | the query of `base?q` is `q` when `base` is plain and ASCII |
| UtmExtract.TermAndContentExtracted | app.py:44-81 | for `base?utm_term=X&utm_content=Y` with a plain ASCII `base`, the extractors return X and Y, and no campaign |
| Tally.DistinctMembers | app.py:213 | a counter's keys are exactly the values counted, each once |
| Tally.DistinctPrefix | app.py:213 | the keys of a prefix come first, in the same order, among the keys of the whole list |
| Tally.FirstIndex | app.py:213 | the first position of a value: it holds the value and no earlier position does |
| Tally.DistinctInFirstAppearanceOrder | app.py:213 | a counter's keys come in order of first appearance |
| Tally.SumOfCountsIsLength | app.py:213 | the counts of a counter add up to the length of the counted list |
| Tally.FirstMaxIsFirstLargest | app.py:222 | the chosen key has the largest count, and every key before it counts strictly less |
| Tally.MostCommonIsFirstMode | app.py:222 | `most_common(1)[0][0]` occurs in the list, nothing occurs more often, and among equally frequent values it is the one seen first |
| Tally.Count | app.py:213 | builds the counter one value at a time: its keys are the distinct values in order of first appearance, each with its number of occurrences |
| Tally.MostCommonValue | app.py:222 | counting and then scanning the keys for the first maximum yields the most common value |
| LeadReport.Cell | app.py:202-204 | `row.get(key, '')`: the cell when the column is present, `''` otherwise |
| LeadReport.Terms | app.py:213 | the term of each lead, position by position |
| LeadReport.CollectLeads | app.py:185-207 | the row loop keeps, in row order, exactly the leads of the rows whose URL contains `utm_term=`, parses and carries a term |
| LeadReport.NameTerms | app.py:216-226 | every counted term, and no other, gets its name in the mapping |
| LeadReport.SummaryLines | app.py:229-235 | one summary line per counted term, in the counter's key order, with the term's name and count |
| LeadReport.AttachNames | app.py:238-239 | every lead is annotated with its own term's name |
| LeadReport.ProcessCsv | app.py:169-250 | no header gives the `NoneType` error; a header without `SORGENTE` gives its error whatever the rows hold; no lead gives `Nessun URL con utm_term trovato nel file`; otherwise the analysis |
| LeadReport.LeadOfMatchesExtractors | app.py:185-207 | a row yields a lead exactly when its URL contains `utm_term=` and carries a term; the lead holds the extracted values (`''` when absent) and the row's date, time and email |
| LeadReport.LeadsKeepRowOrder | app.py:185-207 | whichever way a row's lead is derived, the leads of a file are the leads of its first part followed by those of the rest; one row yields at most its own lead |
| LeadReport.LeadCountsAddUp | app.py:213-247 | the `numero_lead` column adds up to the number of detailed leads, which is `rows_with_utm_term` |
| LeadReport.EachTermOnce | app.py:229-235 | the summary lists every distinct term once, in order of first appearance, each with at least one lead; `unique_ads` is its length |
| LeadReport.NameIsMostFrequentContent | app.py:216-226 | a term's name is its most frequent non-empty content, ties going to the one met first, or the term itself when it has none |
| LeadReport.DetailCarriesTermName | app.py:238-239 | each detailed lead is the lead at the same position and carries the name shown on its term's summary line |
| StableSort.Insert | app.py:139 | inserting adds exactly one element |
| StableSort.SortDesc | app.py:139 | sorting keeps the length |
| StableSort.InsertionPoint | app.py:139 | an element is placed after every element whose key is at least its own, and before the rest |
| StableSort.InsertProperties | app.py:139 | inserting into a sorted list keeps it sorted, adds exactly that element, and places it after the equal keys |
| StableSort.SortDescProperties | app.py:139 | `sort(key=..., reverse=True)`: sorted largest first, a permutation, and elements with equal keys keep their order |
| StableSort.InsertInPlace | app.py:139 | moving `a[i]` left into the sorted prefix is the insertion into it, and the rest of the array is untouched |
| StableSort.SortInPlace | app.py:139 | the in-place insertion sort of an array leaves the stable descending sort of its contents |
| StableSort.SortDescMembers | app.py:139 | sorting neither adds nor drops a value |
| RankedReport.TermsOf | extract_utm_term.py:88 | the extracted term of each kept row, position by position |
| RankedReport.WithContent | extract_utm_term.py:100-107 | the counter keys that get a mapping entry are exactly those with a truthy term and some content |
| RankedReport.WithContentKeepsKeyOrder | extract_utm_term.py:100-107 | the mapped terms come in the counter's key order, and distinct keys give distinct entries |
| RankedReport.Lines | extract_utm_term.py:110-117 | one summary line per mapped term, in order |
| RankedReport.Details | extract_utm_term.py:142-151 | one detail line per kept row, in order |
| RankedReport.CounterItems | app.py:160 | the counter's items pair each key with its count, in key order |
| RankedReport.FilterSourced | extract_utm_term.py:63-68 | the pre-filter loop keeps exactly the rows with a non-empty `SORGENTE` that contains `utm_term`, in order |
| RankedReport.TagRows | extract_utm_term.py:74-83 | the tagging loop, for extractors answering as the given function does, yields the surviving rows in input order, each with its three extracted values |
| RankedReport.MapContents | extract_utm_term.py:100-107 | the mapping holds each term that has content, with its most frequent content, in the counter's key order |
| RankedReport.SummaryLines | extract_utm_term.py:110-117 | the results list is one line per mapped term with its occurrence count |
| RankedReport.SortByLeads | extract_utm_term.py:120 | the results are the stable descending sort by `numero_lead` |
| RankedReport.DetailLines | extract_utm_term.py:142-151 | the detailed list is one line per kept row, in order |
| RankedReport.MostCommonOf | app.py:160 | `most_common(n)` from the counter: the items sorted stably by count, largest first, cut at `n` |
| RankedReport.Aggregate | app.py:114-161 | for extractors answering as the given function does, everything after the pre-filter yields the ranked summary of the file; the corrected variants pass the working extractor |
| RankedReport.ProcessCsvFile | app.py:83-167 | as written: any row passing the pre-filter makes the result the `NameError` of the missing `pd`; only a file with no such row gets an (empty) summary |
| RankedReport.ProcessCsvFileFixed | app.py:83-167 | with `pandas` imported, the result is always the ranked summary |
| RankedReport.RunScript | extract_utm_term.py:52-160 | as written: any row passing the pre-filter crashes `main` at line 76; otherwise it writes two empty files |
| RankedReport.RunScriptFixed | extract_utm_term.py:52-160 | with `pandas` imported, `main` writes the ranked summary and the detail lines |
| RankedReport.TaggedRowsKeepOrder | extract_utm_term.py:63-83 | for any extractor, surviving rows keep input order (a file's survivors are those of its first part followed by those of the rest); a single row survives exactly when it passes the pre-filter and its term is present and non-blank, and then carries its term, campaign and content |
| RankedReport.RankedResultsSortedStably | extract_utm_term.py:120 | for any extractor, the results are sorted by lead count, largest first, hold exactly the unsorted lines, keep first-appearance order among equal counts, and `unique_ads` is their number |
| RankedReport.ResultsAreTermsWithContent | extract_utm_term.py:100-117 | for any extractor, a term gets a results line exactly when one of its leads has content; the line names it after its most frequent content and counts all its leads (at least one) |
| RankedReport.ResultsListEachTermOnce | app.py:116-157 | for any extractor, no two results lines share a term, so `unique_ads` is the number of distinct terms that have a content |
| RankedReport.DetailKeepsOwnContent | extract_utm_term.py:142-151 | for any extractor, every lead gets one detail line, in lead order, with date, time and email (`''` when absent) and its own content, not the mapped name |
| RankedReport.TopTermsAreMostFrequent | app.py:160 | for any extractor, `top_utm_terms` has at most ten terms with their counts, largest first, and no term left out has more leads than any term in it |
| RankedReport.LeftOutCountsNoMore | app.py:160 | in a list sorted by count, an item past the cut counts no more than any item before it |
| RankedReport.OneLeadShowsTheMissingImport | app.py:94-111 | a one-lead file (plain ASCII `base`) passes the pre-filter, so as written it fails, while the intended aggregation reports that one lead with its content as name |
| LicenseService.AuthenticateUser | services/airtable_service.py:16-61 | a user is returned exactly when the read succeeded, found a record, and that record's `fields.get('password')` equals the given value (`None` for a record without a password); the user dict holds the record's id and its `user_id`, `username` and `Name` fields; a failure looks like bad credentials |
| LicenseService.PasswordlessRecords | services/airtable_service.py:44-47 | a record without a `password` field is opened by `None` and by nothing else, so never by the truthy password the login handler passes |
| LicenseService.PasswordIsExact | services/airtable_service.py:36-61 | at most one password opens a record, and a failed read equals an empty one |
| LicenseService.LinkedLicensesConcat | services/airtable_service.py:93-107 | the filter over two parts is the filter of each part, concatenated: fetch order is kept |
| LicenseService.LinkedLicensesKeepsLinked | services/airtable_service.py:93-107 | the filter fails exactly when some record's `in` test raises; otherwise it keeps exactly the records whose `Utente_Collegato` (absent = `[]`) holds the user id |
| LicenseService.NoneSticks | services/airtable_service.py:93-115 | once the test raises on a prefix, the whole filter fails |
| LicenseService.GetUserLicenses | services/airtable_service.py:63-115 | the append loop yields the linked licenses in fetch order, and `[]` on any failure |
| LicenseService.VerdictIsFirstActive | services/airtable_service.py:127-151 | the verdict is active exactly when some license has `stato == 'Attivo'`, and it carries the first such one; otherwise it is the inactive message |
| LicenseService.CheckUserLicense | services/airtable_service.py:117-125 | true exactly when some kept license is active |
| LicenseService.VerifyLicense | services/airtable_service.py:127-151 | the scan yields the verdict on the user's licenses |
| LicenseService.CheckAgreesWithVerify | services/airtable_service.py:117-151 | both checks agree, and the service never reports a failed lookup |
| LicenseService.PreferenceFieldsIgnoreOtherKeys | services/airtable_service.py:229-230 | without `tema_interfaccia` and `json_pref` the written theme is `None` and the JSON text `''` |
| LicenseService.UpdateOutcomes | services/airtable_service.py:207-253 | success exactly when the lookup and the write succeed; a failure leaves the table unchanged; an existing record is patched keeping its other fields; otherwise a record is created with exactly the theme, the JSON text and `Utente = [user_id]`; other records are unchanged |
| LicenseService.PreferenceTable.Update | services/airtable_service.py:207-253 | the table and the answer after the update are those the update specification gives |
| Sessions.TimeoutCheckOutcomes | api/middleware.py:71-87 | no user id: `False`, nothing changes; idle strictly longer than the timeout: `False`, session emptied; otherwise `True` and only `last_activity` becomes now; a missing stamp is valid |
| Sessions.TimeoutBoundary | api/middleware.py:79-81 | idle for exactly the timeout is still valid; one second more is expired |
| Sessions.ExpiredStaysExpired | api/middleware.py:71-87 | after an expiry every later check answers `False` and changes nothing |
| Sessions.RefreshIsIdempotent | api/middleware.py:83-85 | a second check at the same instant changes nothing |
| Sessions.Session.CheckTimeout | api/middleware.py:71-87 | the answer and the new entries are those of the timeout specification |
| Sessions.Session.Clear | api/auth/login.py:77 | the session is empty |
| Sessions.LoginRequired | api/middleware.py:6-20 | the handler runs exactly when the session has a user id; otherwise 401 JSON or a redirect to the login |
| Sessions.AppToCheck | api/middleware.py:39 | `None` and `''` fall back to the configured app name; any other name is used |
| Sessions.LicenseGateLadder | api/middleware.py:22-69 | the handler runs exactly when there is a user and the verdict is active; without a user the refusal does not depend on the license store; a failed lookup gives 500, an inactive license 403 |
| Sessions.ServiceGateNeverReportsLookupError | api/middleware.py:46-64 | with the service's `verify_license` behind it, the 500 branch cannot happen |
| Sessions.AdminRequired | api/middleware.py:89-115 | the handler runs exactly when there is a user whose role (default `'user'`) is `'admin'`; no user gives the login refusal, any other role 403 or a redirect |
| AuthApi.LoginLastsTimeout | api/auth/login.py:43-47 | a fresh login is well formed and stays valid for exactly `timeout` idle seconds |
| AuthApi.Login | api/auth/login.py:8-70 | no body gives 400; a missing username or password gives 400 before any lookup; 200 exactly when authentication succeeds, and then the five entries are written; a rejected password gives 401 `Credenziali non valide`; every reply but 200 leaves the session unchanged |
| AuthApi.Logout | api/auth/login.py:72-88 | the session is emptied and the reply is 200 |
| AuthApi.CheckSession | api/auth/login.py:90-124 | no user id: 401 `Sessione non attiva`, unchanged; expired: 401 `Sessione scaduta`, cleared; 200 exactly when valid and a user name is present, with the role defaulting to `'user'`; valid without a user name: the `KeyError` 500 `Errore durante la verifica della sessione: 'username'` |
| RequestGate.BeforeRequest | app.py:253-281 | a matched request whose path starts with an excluded prefix skips every check; otherwise no user id gives the login refusal; then the timeout check decides and updates the session |
| RequestGate.ExclusionIsByPrefix | app.py:256-259 | any path extending an excluded prefix is let through when a route matched, and never when none did |
| RequestGate.ProtectedPaths | app.py:256-259 | `/upload`, `/api/licenses/verify` and `/api/auth/logout` always go through the checks |
| RequestGate.Lower | app.py:313 | lower-casing changes each character on its own and keeps the length |
| RequestGate.UploadAcceptsCsvInAnyCase | app.py:304-313 | a file is processed exactly when its name ends in `.csv` in any mix of cases |
| LicensesApi.RequestedApp | api/licenses/verify.py:14-18 | `app_name` from the JSON body on POST or the query on GET, defaulting to the configured name |
| LicensesApi.VerifyEndpoint | api/licenses/verify.py:8-52 | no user gives the login refusal; a missing user name gives 500; an active license gives 200 with it, otherwise 403 with `success: True` |
| LicensesApi.ListEntries | api/licenses/verify.py:83-92 | one entry per record, each that record's projection |
| LicensesApi.ListUserLicenses | api/licenses/verify.py:54-117 | a failed read gives 500; otherwise 200 with `success: True`, one entry per record, in order, and `total_count` equal to their number |
| LicensesApi.CheckFeatureAccess | api/licenses/verify.py:119-176 | as written: missing body or feature name gives 400; a failed or inactive license gives 200 and no access; otherwise access is looked up in the license dict |
| LicensesApi.FeatureAccessNeverGranted | api/licenses/verify.py:158-161 | the license dict never has `Funzionalita_Abilitate`, so access is always denied |
| LicensesApi.CheckFeatureAccessFixed | api/licenses/verify.py:119-176 | corrected: the same ladder; when the first active license's record holds a feature list, the reply is 200 and `feature_access` is exactly whether the requested feature is in that list |
| LicensesApi.ExportFeatureWitness | api/licenses/verify.py:158-161 | an active license linked to `u7` that enables `export`: denied as written, granted once corrected |
| ProfileApi.GetProfile | api/users/profile.py:8-49 | after the common refusals, a failed read gives 404; otherwise 200 with the session's user id, the record's user name, name, `user_id` and `incrementale` (`None` when absent, never the `''` default) and the stored preferences (`{}` when none) |
| ProfileApi.Payload | api/users/profile.py:67-73 | the payload holds exactly the allowed fields whose lower-case key the body has, with the body's values |
| ProfileApi.CopyAllowed | api/users/profile.py:67-73 | the copy loop yields the copied field names in allow-list order and the payload |
| ProfileApi.UpdateProfile | api/users/profile.py:51-123 | no user or an empty body is refused; no allowed field gives 400 and nothing is sent; otherwise the payload is sent, and the reply is 200 with `updated_fields` or 500 when the store refuses |
| ProfileApi.ProfileUpdateAllowList | api/users/profile.py:67-79 | only `Email`, `Nome` and `Cognome` are copied, in that order, read from `email`, `nome`, `cognome` |
| ProfileApi.UpdatePreferences | api/users/profile.py:158-226 | as written: after the checks, the service gets the keys `theme`/`json_prefs` and the table changes as the update specification says |
| ProfileApi.UpdatePreferencesFixed | api/users/profile.py:158-226 | corrected: the service gets `tema_interfaccia`/`json_pref` |
| ProfileApi.PreferencesLostAsWritten | api/users/profile.py:200-207 | as written, the stored theme is always `None` and the stored JSON text `''` |
| ProfileApi.PreferencesStoredFixed | api/users/profile.py:200-207 | with the correction, the stored theme and JSON text are the request's own |
| ProfileApi.DarkThemeWitness | api/users/profile.py:200-207 | a request for the theme `dark` stores `None` as written, and `dark` once corrected |
| UrlQuery.SplitQuery | app.py:50 | definition of `urlparse(url).query`: leading blanks stripped, tabs and line breaks deleted, scheme and network location dropped, then the text between the first `?` and the first `#`; `None` for unbalanced brackets (meaning proved in `SplitQueryIsQueryComponent`) |
| UrlQuery.ParseQsl | app.py:51 | definition of `parse_qsl`: the `&`-separated pieces that have `=` and a non-empty value, name and value decoded, in query order |
| UrlQuery.FirstValue | app.py:52 | definition of `parse_qs(...).get(key, [d])[0]` as an option (meaning proved in `FirstValueIsEarliest`) |
| FormDecoding.UnquoteToBytes | app.py:51 | definition of `unquote_to_bytes` on an ASCII run: a `%` followed by two hex digits is that byte, any other character its own code |
| FormDecoding.Utf8Decode | app.py:51 | definition of `bytes.decode('utf-8', 'replace')`: each maximal ill-formed subpart becomes one U+FFFD |
| FormDecoding.Unquote | app.py:51 | definition of `unquote`: a string without `%` as it is, otherwise each ASCII run unquoted to bytes and decoded, other characters kept (shortcut proved in `UnquoteShortcutAgrees`) |
| FormDecoding.Decode | app.py:51 | definition of the decoding `parse_qsl` applies to a name or value: `+` becomes a space, then `unquote` |
| UtmExtract.ExtractParam | app.py:44-55 | definition of the intended extractor: the first value of the parameter, `None` when absent or when `urlparse` raises (meaning proved in `ExtractParamIsFirstValue`) |
| UtmExtract.ExtractAsWritten | app.py:44-81 | definition of the extractors as written: `pd.isna` raises `NameError` before the `try`, whatever the URL |
| UtmExtract.ScriptExtractTerm | extract_utm_term.py:6-20 | definition of the script's term extractor: `None` for an empty URL, otherwise as the intended extractor (proved in `ScriptExtractorAgrees`) |
| LeadReport.LeadOf | app.py:186-207 | definition of one row's lead: only when the URL contains `utm_term=`, parses and has a truthy `utm_term`; values default to `''` (meaning proved in `LeadOfMatchesExtractors`) |
| LeadReport.NameFor | app.py:217-226 | definition of a term's name: the most common non-empty content, or the term (meaning proved in `NameIsMostFrequentContent`) |
| LeadReport.Analyse | app.py:212-247 | definition of the report `process_csv` returns once the file has a `SORGENTE` column and a lead: one summary line per distinct term in counter order, the named details, and the three counts |
| Tally.MostCommon | app.py:221-222 | definition of `Counter(xs).most_common(1)[0][0]` (meaning proved in `MostCommonIsFirstMode`) |
| Sessions.TimeoutCheck | api/middleware.py:71-87 | definition of `check_session_timeout`'s answer and the session it leaves (meaning proved in `TimeoutCheckOutcomes`) |
| Sessions.LicenseRequired | api/middleware.py:22-69 | definition of the `license_required` ladder (meaning proved in `LicenseGateLadder`) |
| LicenseService.MemberOf | services/airtable_service.py:99 | definition of Python's `in`: membership on a list, substring on a string with a string needle, key membership on a dict; `None` where it raises `TypeError` |
| LicenseService.LinkedLicenses | services/airtable_service.py:93-107 | definition of the client-side filter: the licenses whose `Utente_Collegato` holds the user id, or `None` when a test raises (meaning proved in `LinkedLicensesKeepsLinked`) |
| LicenseService.UserLicenses | services/airtable_service.py:63-115 | definition of `get_user_licenses`: the filtered licenses of the read, `[]` on any failure |
| LicenseService.VerdictOf | services/airtable_service.py:127-151 | definition of `verify_license`'s verdict on a license list (meaning proved in `VerdictIsFirstActive`) |
| LicenseService.AfterUpdate | services/airtable_service.py:207-253 | definition of the preferences table and answer after `update_user_preferences` (meaning proved in `UpdateOutcomes`) |
| RequestGate.CheckUpload | app.py:303-313 | definition of `upload_file`'s checks on the uploaded file name (meaning proved in `UploadAcceptsCsvInAnyCase`) |
| LicensesApi.FeatureRequestError | api/licenses/verify.py:123-142 | definition of `check_feature_access`'s refusals: no user, empty body, no truthy `feature_name`, no user name in the session |
| ProfileApi.HandlerRefusal | api/users/profile.py:158-172 | definition of the refusals common to the profile handlers: no user, an empty body where one is read, no user name in the session |
| ProfileApi.PreferenceRequestError | api/users/profile.py:162-195 | definition of `update_preferences`'s refusals before the write: the common refusals, then a non-string `json_prefs` (the `TypeError` 500), an unparsable one (400), and neither `theme` nor `json_prefs` (400) |
| Values.GetOr | services/airtable_service.py:229-230 | `dict.get(key, default)`: the value when the key is present, the default otherwise |
| Values.Message | api/auth/login.py:14-27 | the `{'success', 'message'}` body holds exactly those two keys with the given values |
| Values.InternalError | api/licenses/verify.py:174-176 | a catch-all handler answers 500 |

## Left out

- CSV reading and writing (`csv.DictReader`/`DictWriter`, the `utf-8-sig` BOM, file
  saving, `secure_filename`, timestamped names) are I/O. Rows are given as a header and a
  sequence of column-to-text maps; a cell that `DictReader` would fill with `None` is an
  absent key.
- Choosing the most recent upload by creation time (`app.py:357-365`) is I/O and is not
  modelled. That choice can pick the application's own export file.
- HTTP calls to the record store and their `filterByFormula` strings run on the remote
  side. Reads are inputs (`Fetched` or `Failed`) and writes are success flags. The text of
  a network exception is collapsed into `Failed`.
- LicenseService.AuthenticateUser (and LicenseService.MemberOf): Python's `True == 1`
  equality across types is not modelled. Values of different JSON kinds are unequal. JSON
  numbers are integers only, so `1 == 1.0` is not modelled either.
- Values.Json: has no floating-point number. A request or record holding a number with a
  fraction is outside the model, and so are the falsy `0.0` (`Values.Truthy`) and the type
  name `'float'` (`Values.TypeName`, read by the `TypeError` messages).
- LicenseService.UpdateOutcomes: the id the store gives a created record is an input,
  assumed fresh.
- `api/airtable_service.py` is not part of this model. Its filtering happens inside remote
  formulas, and no modelled module imports it.
- `config.py` holds constants only. `SESSION_TIMEOUT` (3600) and `APP_NAME` are
  parameters with those defaults. The store's API key is not carried over.
- `get_user_profile` and `get_user_preferences` are reads of the store, given as inputs.
  The `/preferences` GET route is not part of the modelled core.
- Flask plumbing (`render_template`, `flash`, `jsonify`, `send_file`, chart JSON) and all
  logging and `print` calls. A redirect is its endpoint name.
- The clock: `datetime.now` and `fromisoformat` become integer seconds. A session entry
  other than the ones login writes is outside `Sessions.WellFormed`.
- `json.loads` is library code, modelled as a `parses` predicate given as input.
- Request bodies that are JSON but not objects are not modelled. A body is an object or
  missing.
- RequestGate.Lower: lower-cases ASCII letters only. No other character lower-cases to
  `.`, `c`, `s` or `v`, so the `.csv` test is exact.
- UtmExtract.ScriptExtractTerm: takes a string. The script's `None` for a non-string URL
  cannot arise from a CSV cell.
- UrlQuery.SplitQuery: `urlsplit`'s check of a bracketed host (it must be an IPv6 or
  IPvFuture address, not an IPv4 one, as in `https://[abc]/`) and its NFKC check of a
  non-ASCII network location (`https://a℀b/`, where `℀` becomes `a/c`) are not modelled.
  They need `ipaddress` and the Unicode tables. The model gives such URLs their query.
- UtmExtract.ExtractParamIsFirstValue: its `None when parsing raises` covers the
  unbalanced-bracket error only. A URL failing one of the two checks above answers `None`
  in the source but its query's value in the model.
- LeadReport.LeadOfMatchesExtractors: for the same URLs, `process_csv` skips the row (its
  `except Exception: continue`), while the model gives it a lead.
- UtmExtract.NoBracketsNoRaise: stated for ASCII URLs only. A non-ASCII network location
  can fail the NFKC check without any bracket.
- LicensesApi.ListUserLicenses: a network exception during the read answers 500 with
  `Errore durante il recupero delle licenze: ` followed by the exception's text. A
  `Failed` read gives the non-200 answer, without the colon and the text.
- ProfileApi.UpdateProfile: a network exception during the write answers 500 with
  `Errore durante l'aggiornamento: ` followed by the exception's text. A refused write
  gives `Errore durante l'aggiornamento del profilo`.
- `request.get_json()` behaves as in Werkzeug before 2.1: a request without a JSON body
  gives `None`, which the handlers refuse as missing data. From Werkzeug 2.1 on, such a
  request makes `get_json()` raise, and each handler's `except Exception` answers 500;
  only a JSON `null` body still gives `None`. This concerns AuthApi.Login,
  LicensesApi.RequestedApp, LicensesApi.VerifyEndpoint, LicensesApi.CheckFeatureAccess,
  ProfileApi.UpdateProfile and ProfileApi.UpdatePreferences.

## Findings

| source | as written | input that shows it | evidently intended | confidence | as-written member | corrected member |
|---|---|---|---|---|---|---|
| app.py:46 | the extractors call `pd.isna`, but `pandas` is never imported (also extract_utm_term.py:24 and :39), so each call raises `NameError`; `process_csv_file` returns `success: False` and the script crashes at line 76 | a file with one row whose `SORGENTE` is `base?utm_term=X&utm_content=Y`, with a plain ASCII `base` | the ranked summary of that lead, named Y | not executed | RankedReport.ProcessCsvFile | RankedReport.ProcessCsvFileFixed |
| api/licenses/verify.py:158-161 | the features are read from the license dict, which never carries `Funzionalita_Abilitate`, so `feature_access` is always false | an active license linked to `u7` whose record enables `export`, and a request for `export` | access granted when the license record lists the feature | not executed | LicensesApi.CheckFeatureAccess | LicensesApi.CheckFeatureAccessFixed |
| api/users/profile.py:200-207 | the handler hands the service `theme` and `json_prefs`, but the service reads `tema_interfaccia` and `json_pref`, so it stores `None` and `''` | a request setting the theme to `dark` | the stored theme is `dark` | not executed | ProfileApi.UpdatePreferences | ProfileApi.UpdatePreferencesFixed |
