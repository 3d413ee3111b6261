/** `process_csv_file` of app.py and `main` of extract_utm_term.py. Both keep the rows
    whose `SORGENTE` contains `utm_term`, extract term, campaign and content with the
    extractor functions, name each term after its most frequent content (terms without
    content get no summary line), sort the summary by lead count, largest first, and list
    every lead with its own content as the ad name. As written, the extractors they call
    use `pd`, which neither file imports: `process_csv_file` reports the `NameError` as
    soon as one row passes the pre-filter, and `main` stops there (line 76). `Ranked` is
    the evidently intended outcome, with the extractors working. */
module RankedReport {
  import opened Values
  import opened UrlQuery
  import opened UtmExtract
  import opened Tally
  import opened StableSort
  import LeadReport
  import FormDecoding

  type Row = LeadReport.Row
  type Summary = LeadReport.Summary

  const TermSubstring: string := "utm_term"
  /** The line of extract_utm_term.py whose call raises in `main`. */
  const CrashLine: nat := 76
  /** How many entries `top_utm_terms` keeps (`most_common(10)`). */
  const TopCount: nat := 10

  /** A kept row with the values written into it under `utm_term_extracted`,
      `utm_campaign_extracted` and `utm_content_extracted`. */
  datatype TaggedRow = TaggedRow(row: Row, term: string, campaign: Option<string>, content: Option<string>)

  /** A line of the detailed output: `Data`, `Ora`, `Email`, `UTM_Term`, `Campagna` and
      `Nome_Inserzione` (the row's own content, `None` when the URL has none). */
  datatype DetailLine = DetailLine(
    date: string, time: string, email: string, term: string, campaign: Option<string>, name: Option<string>)

  /** The dict `process_csv_file` returns on success. */
  datatype FileSummary = FileSummary(
    totalRows: nat,
    rowsWithTerm: nat,
    uniqueAds: nat,
    results: seq<Summary>,
    detailed: seq<DetailLine>,
    topTerms: seq<(string, nat)>)

  /** `{'success': True, ...}` or `{'success': False, 'error': str(e)}`. */
  datatype FileOutcome = Succeeded(summary: FileSummary) | Errored(error: string)

  /** How `main` ends: an uncaught exception at a line, or the two files it writes. */
  datatype ScriptRun = Crashed(line: nat, error: string) | Finished(results: seq<Summary>, detailed: seq<DetailLine>)

  function LeadsKey(s: Summary): int
  {
    s.leads
  }

  function CountKey(item: (string, nat)): int
  {
    item.1
  }

  function Min(a: nat, b: nat): nat
  {
    if a <= b then a else b
  }

  /** The pre-filter: a non-empty `SORGENTE` containing `utm_term` (no `=` needed). */
  predicate Sourced(row: Row)
  {
    var s := LeadReport.Cell(row, LeadReport.SourceColumn);
    s != "" && Contains(s, TermSubstring)
  }

  function PreFilter(rows: seq<Row>): (kept: seq<Row>)
  {
    if rows == [] then []
    else PreFilter(rows[..|rows| - 1]) + (if Sourced(rows[|rows| - 1]) then [rows[|rows| - 1]] else [])
  }

  /** The three extractors as one function of the URL and the parameter name. */
  type Extractor = (string, string) -> Option<string>

  /** The row with the values `extract` gives, when it has a (truthy) `utm_term`. */
  function TagOf(row: Row, extract: Extractor): Option<TaggedRow>
  {
    var url := LeadReport.Cell(row, LeadReport.SourceColumn);
    match extract(url, TermKey)
    case None => None
    case Some(t) =>
      if t == "" then None
      else Some(TaggedRow(row, t, extract(url, CampaignKey), extract(url, ContentKey)))
  }

  /** The tagged row of `row` as a list of zero or one elements. */
  function TagList(row: Row, extract: Extractor): (r: seq<TaggedRow>)
    ensures |r| <= 1
  {
    match TagOf(row, extract)
    case None => []
    case Some(t) => [t]
  }

  /** The rows with a truthy `utm_term`, tagged with what `extract` gives, in order. */
  function TaggedBy(rows: seq<Row>, extract: Extractor): (tagged: seq<TaggedRow>)
  {
    if rows == [] then [] else TaggedBy(rows[..|rows| - 1], extract) + TagList(rows[|rows| - 1], extract)
  }

  /** The tagged rows with the extractors working. */
  function Tagged(rows: seq<Row>): seq<TaggedRow>
  {
    TaggedBy(rows, ExtractParam)
  }

  /** `[row['utm_term_extracted'] for row in rows_with_utm_term]`. The same projection as
      `LeadReport.Terms`, taken here over this pipeline's tagged rows, which keep the whole
      row beside the term. */
  function TermsOf(tagged: seq<TaggedRow>): (ts: seq<string>)
    ensures |ts| == |tagged|
    ensures forall i :: 0 <= i < |tagged| ==> ts[i] == tagged[i].term
  {
    seq(|tagged|, i requires 0 <= i < |tagged| => tagged[i].term)
  }

  /** The truthy contents of the rows of `term`, in row order. */
  function ContentsOf(tagged: seq<TaggedRow>, term: string): seq<string>
  {
    if tagged == [] then []
    else
      var init := ContentsOf(tagged[..|tagged| - 1], term);
      var last := tagged[|tagged| - 1];
      if last.term == term && last.content.Some? && last.content.value != "" then init + [last.content.value]
      else init
  }

  predicate HasContent(tagged: seq<TaggedRow>, term: string)
  {
    term != "" && ContentsOf(tagged, term) != []
  }

  /** The keys of `ks` that get an entry in `utm_term_to_content`, in order. */
  function WithContent(tagged: seq<TaggedRow>, ks: seq<string>): (r: seq<string>)
    ensures forall t :: t in r ==> HasContent(tagged, t) && t in ks
    ensures forall t :: t in ks && HasContent(tagged, t) ==> t in r
  {
    if ks == [] then []
    else
      var init := WithContent(tagged, ks[..|ks| - 1]);
      var last := ks[|ks| - 1];
      assert forall t :: t in ks[..|ks| - 1] ==> t in ks;
      assert forall t :: t in ks ==> t in ks[..|ks| - 1] || t == last;
      if HasContent(tagged, last) then init + [last] else init
  }

  function LineOf(tagged: seq<TaggedRow>, term: string): Summary
    requires ContentsOf(tagged, term) != []
  {
    LeadReport.Summary(term, MostCommon(ContentsOf(tagged, term)), Occurrences(TermsOf(tagged), term))
  }

  /** One summary line per term of `ts`, in that order. */
  function Lines(tagged: seq<TaggedRow>, ts: seq<string>): (r: seq<Summary>)
    requires forall t :: t in ts ==> ContentsOf(tagged, t) != []
    ensures |r| == |ts|
  {
    if ts == [] then []
    else
      assert forall t :: t in ts[..|ts| - 1] ==> t in ts;
      Lines(tagged, ts[..|ts| - 1]) + [LineOf(tagged, ts[|ts| - 1])]
  }

  /** The summary before sorting: the terms with content, in order of first appearance. */
  function Unranked(tagged: seq<TaggedRow>): seq<Summary>
  {
    Lines(tagged, WithContent(tagged, Distinct(TermsOf(tagged))))
  }

  function DetailOf(t: TaggedRow): DetailLine
  {
    DetailLine(LeadReport.Cell(t.row, "Data"), LeadReport.Cell(t.row, "Ora"), LeadReport.Cell(t.row, "Email"),
               t.term, t.campaign, t.content)
  }

  function Details(tagged: seq<TaggedRow>): (r: seq<DetailLine>)
    ensures |r| == |tagged|
  {
    if tagged == [] then [] else Details(tagged[..|tagged| - 1]) + [DetailOf(tagged[|tagged| - 1])]
  }

  /** The items of the counter over `terms`, keys in order `ks`. */
  function CounterItems(terms: seq<string>, ks: seq<string>): (r: seq<(string, nat)>)
    ensures |r| == |ks|
  {
    if ks == [] then [] else CounterItems(terms, ks[..|ks| - 1]) + [(ks[|ks| - 1], Occurrences(terms, ks[|ks| - 1]))]
  }

  /** `Counter(terms).most_common(n)`: the items sorted by count, largest first and
      stable, cut to `n`. */
  function MostCommonItems(terms: seq<string>, n: nat): (r: seq<(string, nat)>)
  {
    var items := SortDesc(CounterItems(terms, Distinct(terms)), CountKey);
    items[..Min(n, |items|)]
  }

  /** What `process_csv_file` returns when its extractors answer as `extract` does. */
  function RankedBy(rows: seq<Row>, extract: Extractor): FileSummary
  {
    var tagged := TaggedBy(PreFilter(rows), extract);
    var results := SortDesc(Unranked(tagged), LeadsKey);
    FileSummary(|rows|, |tagged|, |results|, results, Details(tagged), MostCommonItems(TermsOf(tagged), TopCount))
  }

  /** What `process_csv_file` returns once the extractors work. */
  function Ranked(rows: seq<Row>): FileSummary
  {
    RankedBy(rows, ExtractParam)
  }

  // ---- The steps, as the loops of the source perform them ----

  /** The pre-filter loop that fills `rows_with_url`. */
  method FilterSourced(rows: seq<Row>) returns (kept: seq<Row>)
    ensures kept == PreFilter(rows)
  {
    kept := [];
    for i := 0 to |rows|
      invariant kept == PreFilter(rows[..i])
    {
      assert rows[..i + 1][..i] == rows[..i];
      var sorgente := LeadReport.Cell(rows[i], LeadReport.SourceColumn);
      if sorgente != "" && Contains(sorgente, TermSubstring) {
        kept := kept + [rows[i]];
      }
    }
    assert rows[..|rows|] == rows;
  }

  /** The extraction loop that fills `rows_with_utm_term`, with the extractors working. */
  method TagRows(kept: seq<Row>, extract: Extractor) returns (tagged: seq<TaggedRow>)
    ensures tagged == TaggedBy(kept, extract)
  {
    tagged := [];
    for i := 0 to |kept|
      invariant tagged == TaggedBy(kept[..i], extract)
    {
      assert kept[..i + 1][..i] == kept[..i];
      var url := LeadReport.Cell(kept[i], LeadReport.SourceColumn);
      var term := extract(url, TermKey);
      var campaign := extract(url, CampaignKey);
      var content := extract(url, ContentKey);
      if term.Some? && term.value != "" {
        tagged := tagged + [TaggedRow(kept[i], term.value, campaign, content)];
      }
    }
    assert kept[..|kept|] == kept;
  }

  /** The loop that fills `utm_term_to_content`: the dict's keys in insertion order and
      its values. */
  method MapContents(tagged: seq<TaggedRow>, keys: seq<string>) returns (order: seq<string>, mapping: map<string, string>)
    ensures order == WithContent(tagged, keys)
    ensures forall k :: k in mapping <==> k in order
    ensures forall k :: k in mapping ==> ContentsOf(tagged, k) != [] && mapping[k] == MostCommon(ContentsOf(tagged, k))
  {
    order, mapping := [], map[];
    for j := 0 to |keys|
      invariant order == WithContent(tagged, keys[..j])
      invariant forall k :: k in mapping <==> k in order
      invariant forall k :: k in mapping ==> ContentsOf(tagged, k) != [] && mapping[k] == MostCommon(ContentsOf(tagged, k))
    {
      assert keys[..j + 1][..j] == keys[..j];
      var term := keys[j];
      if term != "" {
        var contents := ContentsOf(tagged, term);
        if contents != [] {
          var m := MostCommonValue(contents);
          mapping := mapping[term := m];
          order := order + [term];
        }
      }
    }
    assert keys[..|keys|] == keys;
  }

  /** The loop over `utm_term_to_content.items()` that builds `results`. */
  method SummaryLines(tagged: seq<TaggedRow>, order: seq<string>, mapping: map<string, string>, counts: map<string, nat>)
    returns (results: seq<Summary>)
    requires forall k :: k in order ==> k in mapping && ContentsOf(tagged, k) != [] && mapping[k] == MostCommon(ContentsOf(tagged, k))
    requires forall k :: k in order ==> k in counts && counts[k] == Occurrences(TermsOf(tagged), k)
    ensures results == Lines(tagged, order)
  {
    results := [];
    for j := 0 to |order|
      invariant results == Lines(tagged, order[..j])
    {
      assert order[..j + 1][..j] == order[..j];
      var term := order[j];
      results := results + [LeadReport.Summary(term, mapping[term], counts[term])];
    }
    assert order[..|order|] == order;
  }

  /** `results.sort(key=lambda x: x['numero_lead'], reverse=True)` on the list. */
  method SortByLeads(results: seq<Summary>) returns (sorted: seq<Summary>)
    ensures sorted == SortDesc(results, LeadsKey)
  {
    var a := new Summary[|results|](i requires 0 <= i < |results| => results[i]);
    assert a[..] == results;
    SortInPlace(a, LeadsKey);
    sorted := a[..];
  }

  /** The loop that builds `detailed_results`. */
  method DetailLines(tagged: seq<TaggedRow>) returns (detailed: seq<DetailLine>)
    ensures detailed == Details(tagged)
  {
    detailed := [];
    for i := 0 to |tagged|
      invariant detailed == Details(tagged[..i])
    {
      assert tagged[..i + 1][..i] == tagged[..i];
      var t := tagged[i];
      detailed := detailed + [DetailLine(LeadReport.Cell(t.row, "Data"), LeadReport.Cell(t.row, "Ora"),
                                         LeadReport.Cell(t.row, "Email"), t.term, t.campaign, t.content)];
    }
    assert tagged[..|tagged|] == tagged;
  }

  /** `utm_term_counts.most_common(n)` from the counter's keys and counts. */
  method MostCommonOf(terms: seq<string>, keys: seq<string>, counts: map<string, nat>, n: nat)
    returns (top: seq<(string, nat)>)
    requires keys == Distinct(terms)
    requires forall k :: k in keys ==> k in counts && counts[k] == Occurrences(terms, k)
    ensures top == MostCommonItems(terms, n)
  {
    var items: seq<(string, nat)> := [];
    for j := 0 to |keys|
      invariant items == CounterItems(terms, keys[..j])
    {
      assert keys[..j + 1][..j] == keys[..j];
      items := items + [(keys[j], counts[keys[j]])];
    }
    assert keys[..|keys|] == keys;
    var a := new (string, nat)[|items|](i requires 0 <= i < |items| => items[i]);
    assert a[..] == items;
    SortInPlace(a, CountKey);
    top := a[..Min(n, a.Length)];
  }

  /** Everything after the pre-filter, with extractors that answer as `extract` does. */
  method Aggregate(rows: seq<Row>, kept: seq<Row>, extract: Extractor) returns (summary: FileSummary)
    requires kept == PreFilter(rows)
    ensures summary == RankedBy(rows, extract)
  {
    var tagged := TagRows(kept, extract);
    var terms := TermsOf(tagged);
    var keys, counts := Count(terms);
    DistinctMembers(terms);
    var order, mapping := MapContents(tagged, keys);
    var unsorted := SummaryLines(tagged, order, mapping, counts);
    var results := SortByLeads(unsorted);
    var detailed := DetailLines(tagged);
    var top := MostCommonOf(terms, keys, counts, TopCount);
    summary := FileSummary(|rows|, |tagged|, |results|, results, detailed, top);
  }

  /** The summary of a file without rows that pass the pre-filter. */
  function EmptySummary(rows: seq<Row>): FileSummary
  {
    FileSummary(|rows|, 0, 0, [], [], [])
  }

  /** `process_csv_file` as written: the first extractor call on a kept row raises
      `NameError`, which the handler returns as the error; only a file where no row
      passes the pre-filter gets a (necessarily empty) summary. */
  method ProcessCsvFile(rows: seq<Row>) returns (out: FileOutcome)
    ensures PreFilter(rows) != [] ==> out == Errored(PdNameError)
    ensures PreFilter(rows) == [] ==> out == Succeeded(EmptySummary(rows))
  {
    var kept := FilterSourced(rows);
    if kept != [] {
      var raised := ExtractAsWritten(LeadReport.Cell(kept[0], LeadReport.SourceColumn), TermKey);
      return Errored(raised.error);
    }
    var summary := Aggregate(rows, kept, ExtractParam);
    return Succeeded(summary);
  }

  /** `process_csv_file` with `pandas` imported. */
  method ProcessCsvFileFixed(rows: seq<Row>) returns (out: FileOutcome)
    ensures out == Succeeded(Ranked(rows))
  {
    var kept := FilterSourced(rows);
    var summary := Aggregate(rows, kept, ExtractParam);
    return Succeeded(summary);
  }

  /** `main` as written: its term extractor works, but the campaign extractor called next
      raises at line 76 for the first kept row; with no kept row it writes two empty
      files. */
  method RunScript(rows: seq<Row>) returns (run: ScriptRun)
    ensures PreFilter(rows) != [] ==> run == Crashed(CrashLine, PdNameError)
    ensures PreFilter(rows) == [] ==> run == Finished([], [])
  {
    var kept := FilterSourced(rows);
    if kept != [] {
      var url := LeadReport.Cell(kept[0], LeadReport.SourceColumn);
      var campaign := ExtractAsWritten(url, CampaignKey);
      return Crashed(CrashLine, campaign.error);
    }
    var summary := Aggregate(rows, kept, ExtractParam);
    return Finished(summary.results, summary.detailed);
  }

  /** `main` with `pandas` imported: the summary file and the detailed file. */
  method RunScriptFixed(rows: seq<Row>) returns (run: ScriptRun)
    ensures run == Finished(Ranked(rows).results, Ranked(rows).detailed)
  {
    var kept := FilterSourced(rows);
    var summary := Aggregate(rows, kept, ExtractParam);
    return Finished(summary.results, summary.detailed);
  }

  // ---- What the ranked report states ----

  lemma {:induction false} PreFilterConcat(a: seq<Row>, b: seq<Row>)
    ensures PreFilter(a + b) == PreFilter(a) + PreFilter(b)
    decreases |b|
  {
    if b == [] {
      assert a + b == a;
    } else {
      PreFilterConcat(a, b[..|b| - 1]);
      assert (a + b)[..|a + b| - 1] == a + b[..|b| - 1];
    }
  }

  /** Tagging one more row appends that row's tagged form. */
  lemma TaggedSnoc(rows: seq<Row>, row: Row, extract: Extractor)
    ensures TaggedBy(rows + [row], extract) == TaggedBy(rows, extract) + TagList(row, extract)
  {
    assert (rows + [row])[..|rows|] == rows;
  }

  lemma {:induction false} TaggedConcat(a: seq<Row>, b: seq<Row>, extract: Extractor)
    ensures TaggedBy(a + b, extract) == TaggedBy(a, extract) + TaggedBy(b, extract)
    decreases |b|
  {
    if b == [] {
      assert a + b == a;
    } else {
      TaggedConcat(a, b[..|b| - 1], extract);
      assert (a + b)[..|a + b| - 1] == a + b[..|b| - 1];
    }
  }

  /** Whatever the extractors answer, the leads of a file are those of its first part
      followed by those of the rest, and a single row is a lead exactly when it passes the
      pre-filter and its extracted `utm_term` is truthy, in which case it carries the three
      extracted values. */
  lemma TaggedRowsKeepOrder(a: seq<Row>, b: seq<Row>, row: Row, extract: Extractor)
    ensures TaggedBy(PreFilter(a + b), extract) == TaggedBy(PreFilter(a), extract) + TaggedBy(PreFilter(b), extract)
    ensures |TaggedBy(PreFilter([row]), extract)| <= 1
    ensures var url := LeadReport.Cell(row, LeadReport.SourceColumn);
      TaggedBy(PreFilter([row]), extract) != [] <==>
        Sourced(row) && extract(url, TermKey).Some? && extract(url, TermKey).value != ""
    ensures var url := LeadReport.Cell(row, LeadReport.SourceColumn);
      TaggedBy(PreFilter([row]), extract) != [] ==>
        TaggedBy(PreFilter([row]), extract)[0] ==
          TaggedRow(row, extract(url, TermKey).value, extract(url, CampaignKey), extract(url, ContentKey))
  {
    PreFilterConcat(a, b);
    TaggedConcat(PreFilter(a), PreFilter(b), extract);
    assert [row][..0] == [];
    assert PreFilter([row]) == (if Sourced(row) then [row] else []);
    assert TaggedBy([row], extract) == TagList(row, extract);
  }

  lemma {:induction false} ContentsOfMembers(tagged: seq<TaggedRow>, term: string)
    ensures forall c :: c in ContentsOf(tagged, term) <==>
      exists i :: 0 <= i < |tagged| && tagged[i].term == term && tagged[i].content == Some(c) && c != ""
    decreases |tagged|
  {
    if tagged != [] {
      var init := tagged[..|tagged| - 1];
      ContentsOfMembers(init, term);
      forall c | (exists i :: 0 <= i < |tagged| && tagged[i].term == term && tagged[i].content == Some(c) && c != "")
        ensures c in ContentsOf(tagged, term)
      {
        var i :| 0 <= i < |tagged| && tagged[i].term == term && tagged[i].content == Some(c) && c != "";
        if i < |init| {
          assert init[i] == tagged[i];
        }
      }
    }
  }

  lemma {:induction false} LinesMembers(tagged: seq<TaggedRow>, ts: seq<string>)
    requires forall t :: t in ts ==> ContentsOf(tagged, t) != []
    ensures forall s :: s in Lines(tagged, ts) <==> exists t :: t in ts && ContentsOf(tagged, t) != [] && s == LineOf(tagged, t)
    decreases |ts|
  {
    if ts != [] {
      var init := ts[..|ts| - 1];
      assert forall t :: t in init ==> t in ts;
      LinesMembers(tagged, init);
      assert forall t :: t in ts ==> t in init || t == ts[|ts| - 1];
    }
  }

  /** The summary is sorted by lead count, largest first; it holds exactly the unsorted
      lines; lines with equal counts keep their order of first appearance; and
      `unique_ads` is its length. */
  lemma RankedResultsSortedStably(rows: seq<Row>, extract: Extractor)
    ensures SortedDesc(RankedBy(rows, extract).results, LeadsKey)
    ensures multiset(RankedBy(rows, extract).results) == multiset(Unranked(TaggedBy(PreFilter(rows), extract)))
    ensures forall k :: WithKey(RankedBy(rows, extract).results, LeadsKey, k) == WithKey(Unranked(TaggedBy(PreFilter(rows), extract)), LeadsKey, k)
    ensures RankedBy(rows, extract).uniqueAds == |RankedBy(rows, extract).results|
  {
    SortDescProperties(Unranked(TaggedBy(PreFilter(rows), extract)), LeadsKey);
  }

  /** A term gets a summary line exactly when one of its leads has a content; the line
      names it after its most frequent content and counts all its leads. */
  lemma ResultsAreTermsWithContent(rows: seq<Row>, extract: Extractor)
    ensures forall s :: s in RankedBy(rows, extract).results <==>
      exists t :: t in TermsOf(TaggedBy(PreFilter(rows), extract)) && HasContent(TaggedBy(PreFilter(rows), extract), t) &&
        s == LeadReport.Summary(t, MostCommon(ContentsOf(TaggedBy(PreFilter(rows), extract), t)),
                                Occurrences(TermsOf(TaggedBy(PreFilter(rows), extract)), t))
    ensures forall s :: s in RankedBy(rows, extract).results ==> s.leads >= 1
  {
    var tagged := TaggedBy(PreFilter(rows), extract);
    assert RankedBy(rows, extract).results == SortDesc(Unranked(tagged), LeadsKey);
    SortedLinesAreTermsWithContent(tagged);
  }

  lemma SortedLinesAreTermsWithContent(tagged: seq<TaggedRow>)
    ensures forall s :: s in SortDesc(Unranked(tagged), LeadsKey) <==>
      exists t :: t in TermsOf(tagged) && HasContent(tagged, t) &&
        s == LeadReport.Summary(t, MostCommon(ContentsOf(tagged, t)), Occurrences(TermsOf(tagged), t))
    ensures forall s :: s in SortDesc(Unranked(tagged), LeadsKey) ==> s.leads >= 1
  {
    SortDescMembers(Unranked(tagged), LeadsKey);
    UnrankedMembers(tagged);
  }

  /** The unsorted summary has one line for each term with content, and no other. */
  lemma UnrankedMembers(tagged: seq<TaggedRow>)
    ensures forall s :: s in Unranked(tagged) <==>
      exists t :: t in TermsOf(tagged) && HasContent(tagged, t) &&
        s == LeadReport.Summary(t, MostCommon(ContentsOf(tagged, t)), Occurrences(TermsOf(tagged), t))
    ensures forall s :: s in Unranked(tagged) ==> s.leads >= 1
  {
    var terms := TermsOf(tagged);
    LinesMembers(tagged, WithContent(tagged, Distinct(terms)));
    DistinctMembers(terms);
  }

  /** `utm_term_to_content` is filled while walking the keys: the terms with content keep
      the keys' order, and no key is listed twice when the keys are distinct. */
  lemma {:induction false} WithContentKeepsKeyOrder(tagged: seq<TaggedRow>, ks: seq<string>)
    ensures NoDuplicates(ks) ==> NoDuplicates(WithContent(tagged, ks))
    ensures forall i, j :: 0 <= i < j < |WithContent(tagged, ks)| ==>
      exists p, q :: 0 <= p < q < |ks| && ks[p] == WithContent(tagged, ks)[i] && ks[q] == WithContent(tagged, ks)[j]
    decreases |ks|
  {
    if ks != [] {
      var init, last := ks[..|ks| - 1], ks[|ks| - 1];
      var w := WithContent(tagged, init);
      WithContentKeepsKeyOrder(tagged, init);
      if HasContent(tagged, last) {
        var r := w + [last];
        assert WithContent(tagged, ks) == r;
        forall i, j | 0 <= i < j < |r| ensures exists p, q :: 0 <= p < q < |ks| && ks[p] == r[i] && ks[q] == r[j] {
          if j < |w| {
            var p, q :| 0 <= p < q < |init| && init[p] == w[i] && init[q] == w[j];
            assert ks[p] == r[i] && ks[q] == r[j];
          } else {
            assert r[i] == w[i] && w[i] in w;
            var p :| 0 <= p < |init| && init[p] == r[i];
            assert ks[p] == r[i] && ks[|ks| - 1] == r[j];
          }
        }
        if NoDuplicates(ks) {
          assert NoDuplicates(init);
          assert last !in init by {
            forall p | 0 <= p < |init| ensures init[p] != last { assert init[p] == ks[p]; }
          }
          KeysApart(w, last);
        }
      }
    }
  }

  lemma KeysApart(w: seq<string>, last: string)
    requires NoDuplicates(w) && last !in w
    ensures NoDuplicates(w + [last])
  {
    forall i, j | 0 <= i < j < |w + [last]| ensures (w + [last])[i] != (w + [last])[j] {
      assert (w + [last])[i] == w[i] && w[i] in w;
    }
  }

  lemma {:induction false} LinesIndexed(tagged: seq<TaggedRow>, ts: seq<string>)
    requires forall t :: t in ts ==> ContentsOf(tagged, t) != []
    ensures forall i :: 0 <= i < |ts| ==> Lines(tagged, ts)[i].term == ts[i]
    decreases |ts|
  {
    if ts != [] {
      var init := ts[..|ts| - 1];
      assert forall t :: t in init ==> t in ts;
      LinesIndexed(tagged, init);
    }
  }

  /** Each term gets at most one summary line, so `unique_ads` is the number of distinct
      terms that have a content. */
  lemma ResultsListEachTermOnce(rows: seq<Row>, extract: Extractor)
    ensures forall i, j :: 0 <= i < j < |RankedBy(rows, extract).results| ==>
      RankedBy(rows, extract).results[i].term != RankedBy(rows, extract).results[j].term
    ensures RankedBy(rows, extract).uniqueAds ==
      |set t | t in TermsOf(TaggedBy(PreFilter(rows), extract)) && HasContent(TaggedBy(PreFilter(rows), extract), t)|
  {
    var tagged := TaggedBy(PreFilter(rows), extract);
    assert RankedBy(rows, extract).results == SortDesc(Unranked(tagged), LeadsKey);
    SortedTermsOnce(tagged);
  }

  lemma SortedTermsOnce(tagged: seq<TaggedRow>)
    ensures forall i, j :: 0 <= i < j < |SortDesc(Unranked(tagged), LeadsKey)| ==>
      SortDesc(Unranked(tagged), LeadsKey)[i].term != SortDesc(Unranked(tagged), LeadsKey)[j].term
    ensures |SortDesc(Unranked(tagged), LeadsKey)| == |set t | t in TermsOf(tagged) && HasContent(tagged, t)|
  {
    var terms := TermsOf(tagged);
    var ks := WithContent(tagged, Distinct(terms));
    DistinctMembers(terms);
    WithContentKeepsKeyOrder(tagged, Distinct(terms));
    LinesIndexed(tagged, ks);
    TermsApart(Unranked(tagged), ks);
    SortKeepsTermsApart(Unranked(tagged));
    assert (set t | t in terms && HasContent(tagged, t)) == (set t | t in ks);
    CardinalityOfNoDuplicates(ks);
  }

  lemma TermsApart(lines: seq<Summary>, ks: seq<string>)
    requires |lines| == |ks| && NoDuplicates(ks)
    requires forall i :: 0 <= i < |ks| ==> lines[i].term == ks[i]
    ensures forall i, j :: 0 <= i < j < |lines| ==> lines[i].term != lines[j].term
  {
  }

  /** Sorting lines whose terms differ gives lines whose terms differ. */
  lemma SortKeepsTermsApart(lines: seq<Summary>)
    requires forall i, j :: 0 <= i < j < |lines| ==> lines[i].term != lines[j].term
    ensures forall i, j :: 0 <= i < j < |SortDesc(lines, LeadsKey)| ==>
      SortDesc(lines, LeadsKey)[i].term != SortDesc(lines, LeadsKey)[j].term
  {
    var sorted := SortDesc(lines, LeadsKey);
    SortDescProperties(lines, LeadsKey);
    PermutationKeepsNoDuplicates(lines, sorted);
    SortDescMembers(lines, LeadsKey);
    forall i, j | 0 <= i < j < |sorted| ensures sorted[i].term != sorted[j].term {
      SameTermSameLine(lines, sorted[i], sorted[j]);
    }
  }

  lemma SameTermSameLine(lines: seq<Summary>, x: Summary, y: Summary)
    requires forall i, j :: 0 <= i < j < |lines| ==> lines[i].term != lines[j].term
    requires x in lines && y in lines
    ensures x.term == y.term ==> x == y
  {
    var p :| 0 <= p < |lines| && lines[p] == x;
    var q :| 0 <= q < |lines| && lines[q] == y;
  }

  /** Every lead gets one detail line, in lead order, with the row's date, time and email
      (`''` when absent), its term and campaign, and its own content as the ad name. */
  lemma DetailKeepsOwnContent(rows: seq<Row>, extract: Extractor)
    ensures |RankedBy(rows, extract).detailed| == RankedBy(rows, extract).rowsWithTerm == |TaggedBy(PreFilter(rows), extract)|
    ensures forall i :: 0 <= i < |RankedBy(rows, extract).detailed| ==>
      var t := TaggedBy(PreFilter(rows), extract)[i];
      var d := RankedBy(rows, extract).detailed[i];
      d.date == LeadReport.Cell(t.row, "Data") && d.time == LeadReport.Cell(t.row, "Ora") &&
      d.email == LeadReport.Cell(t.row, "Email") &&
      d.term == t.term && d.campaign == t.campaign && d.name == t.content
  {
    DetailsIndexed(TaggedBy(PreFilter(rows), extract));
  }

  lemma {:induction false} DetailsIndexed(tagged: seq<TaggedRow>)
    ensures forall i :: 0 <= i < |tagged| ==> Details(tagged)[i] == DetailOf(tagged[i])
    decreases |tagged|
  {
    if tagged != [] {
      DetailsIndexed(tagged[..|tagged| - 1]);
    }
  }

  lemma {:induction false} CounterItemsMembers(terms: seq<string>, ks: seq<string>)
    ensures forall i :: 0 <= i < |ks| ==> CounterItems(terms, ks)[i] == (ks[i], Occurrences(terms, ks[i]))
    decreases |ks|
  {
    if ks != [] {
      CounterItemsMembers(terms, ks[..|ks| - 1]);
    }
  }

  /** `top_utm_terms` lists at most ten terms with their lead counts, largest first, and
      no term left out of it has more leads than any term in it. */
  lemma TopTermsAreMostFrequent(rows: seq<Row>, extract: Extractor)
    ensures |RankedBy(rows, extract).topTerms| == Min(TopCount, |Distinct(TermsOf(TaggedBy(PreFilter(rows), extract)))|)
    ensures SortedDesc(RankedBy(rows, extract).topTerms, CountKey)
    ensures forall p :: p in RankedBy(rows, extract).topTerms ==>
      p.0 in TermsOf(TaggedBy(PreFilter(rows), extract)) && p.1 == Occurrences(TermsOf(TaggedBy(PreFilter(rows), extract)), p.0)
    ensures forall t :: t in TermsOf(TaggedBy(PreFilter(rows), extract)) && (forall p :: p in RankedBy(rows, extract).topTerms ==> p.0 != t) ==>
      forall p :: p in RankedBy(rows, extract).topTerms ==> p.1 >= Occurrences(TermsOf(TaggedBy(PreFilter(rows), extract)), t)
  {
    var terms := TermsOf(TaggedBy(PreFilter(rows), extract));
    TopItemsProperties(terms, TopCount);
  }

  lemma TopItemsProperties(terms: seq<string>, n: nat)
    ensures |MostCommonItems(terms, n)| == Min(n, |Distinct(terms)|)
    ensures SortedDesc(MostCommonItems(terms, n), CountKey)
    ensures forall p :: p in MostCommonItems(terms, n) ==> p.0 in terms && p.1 == Occurrences(terms, p.0)
    ensures forall t :: t in terms && (forall p :: p in MostCommonItems(terms, n) ==> p.0 != t) ==>
      forall p :: p in MostCommonItems(terms, n) ==> p.1 >= Occurrences(terms, t)
  {
    TopItemsCounted(terms, n);
    TopItemsLeaveOutNoMore(terms, n);
  }

  /** The items of `most_common(n)` are sorted, as many as allowed, and each is a term with
      its own count. */
  lemma TopItemsCounted(terms: seq<string>, n: nat)
    ensures |MostCommonItems(terms, n)| == Min(n, |Distinct(terms)|)
    ensures SortedDesc(MostCommonItems(terms, n), CountKey)
    ensures forall p :: p in MostCommonItems(terms, n) ==> p.0 in terms && p.1 == Occurrences(terms, p.0)
  {
    var ks := Distinct(terms);
    var items := CounterItems(terms, ks);
    var sorted := SortDesc(items, CountKey);
    var top := MostCommonItems(terms, n);
    SortDescProperties(items, CountKey);
    SortDescMembers(items, CountKey);
    CounterItemsMembers(terms, ks);
    DistinctMembers(terms);
    SortedPrefix(sorted, Min(n, |sorted|));
    forall p | p in top ensures p.0 in terms && p.1 == Occurrences(terms, p.0) {
      assert p in sorted;
      var i :| 0 <= i < |items| && items[i] == p;
    }
  }

  lemma SortedPrefix(sorted: seq<(string, nat)>, m: nat)
    requires m <= |sorted| && SortedDesc(sorted, CountKey)
    ensures SortedDesc(sorted[..m], CountKey)
    ensures forall p :: p in sorted[..m] ==> p in sorted
  {
  }

  /** A term left out of `most_common(n)` counts no more than any term in it. */
  lemma TopItemsLeaveOutNoMore(terms: seq<string>, n: nat)
    ensures forall t :: t in terms && (forall p :: p in MostCommonItems(terms, n) ==> p.0 != t) ==>
      forall p :: p in MostCommonItems(terms, n) ==> p.1 >= Occurrences(terms, t)
  {
    var ks := Distinct(terms);
    var items := CounterItems(terms, ks);
    var sorted := SortDesc(items, CountKey);
    var top := MostCommonItems(terms, n);
    SortDescProperties(items, CountKey);
    SortDescMembers(items, CountKey);
    CounterItemsMembers(terms, ks);
    DistinctMembers(terms);
    assert top == sorted[..Min(n, |sorted|)];
    forall t | t in terms && (forall p :: p in top ==> p.0 != t)
      ensures forall p :: p in top ==> p.1 >= Occurrences(terms, t)
    {
      var i :| 0 <= i < |ks| && ks[i] == t;
      assert items[i] in sorted;
      LeftOutCountsNoMore(sorted, Min(n, |sorted|), items[i]);
    }
  }

  /** In a list sorted by count, an item outside the first `m` counts no more than any of
      them. */
  lemma LeftOutCountsNoMore(sorted: seq<(string, nat)>, m: nat, item: (string, nat))
    requires m <= |sorted| && SortedDesc(sorted, CountKey)
    requires item in sorted
    requires forall p :: p in sorted[..m] ==> p.0 != item.0
    ensures forall p :: p in sorted[..m] ==> p.1 >= item.1
  {
    var j :| 0 <= j < |sorted| && sorted[j] == item;
    forall p | p in sorted[..m] ensures p.1 >= item.1 {
      var q :| 0 <= q < m && sorted[..m][q] == p;
      assert CountKey(sorted[q]) >= CountKey(sorted[j]);
    }
  }

  // ---- The missing `pandas` import, on one row ----

  lemma SourcedUrl(base: string, rest: string, row: Row)
    requires LeadReport.SourceColumn in row && row[LeadReport.SourceColumn] == base + "?utm_term" + rest
    ensures Sourced(row)
  {
    var url := base + "?utm_term" + rest;
    var i := |base| + 1;
    assert url[i..i + |TermSubstring|] == TermSubstring;
    assert OccursAt(url, TermSubstring, i);
  }

  /** A file with one lead, whose URL is `base?utm_term=X&utm_content=Y` with a plain
      ASCII `base`: it passes the pre-filter, so `process_csv_file` as written answers with
      the `NameError` and `main` crashes, whereas with the extractors working the summary
      has that one lead, named Y. */
  lemma OneLeadShowsTheMissingImport(base: string, x: string, y: string)
    requires PlainValue(x) && PlainValue(y)
    requires '?' !in base && '#' !in base && '[' !in base && ']' !in base && NoUnsafe(base)
    requires FormDecoding.AllAscii(base)
    requires '[' !in x && ']' !in x && '[' !in y && ']' !in y
    ensures var row := map[LeadReport.SourceColumn := base + "?utm_term=" + x + "&utm_content=" + y];
      PreFilter([row]) == [row]
      && Ranked([row]).rowsWithTerm == 1
      && Ranked([row]).results == [LeadReport.Summary(x, y, 1)]
  {
    var url := base + "?utm_term=" + x + "&utm_content=" + y;
    var row := map[LeadReport.SourceColumn := url];
    assert url == base + "?utm_term" + ("=" + x + "&utm_content=" + y);
    SourcedUrl(base, "=" + x + "&utm_content=" + y, row);
    TermAndContentExtracted(base, x, y);
    OneRowTagged(row, x, y);
  }

  lemma OneRowTagged(row: Row, x: string, y: string)
    requires Sourced(row)
    requires ExtractParam(LeadReport.Cell(row, LeadReport.SourceColumn), TermKey) == Some(x)
    requires ExtractParam(LeadReport.Cell(row, LeadReport.SourceColumn), ContentKey) == Some(y)
    requires ExtractParam(LeadReport.Cell(row, LeadReport.SourceColumn), CampaignKey) == None
    ensures PreFilter([row]) == [row]
    ensures Ranked([row]).rowsWithTerm == 1
    ensures Ranked([row]).results == [LeadReport.Summary(x, y, 1)]
  {
    assert [row][..0] == [];
    assert PreFilter([row]) == [row];
    ExtractParamIsFirstValue(LeadReport.Cell(row, LeadReport.SourceColumn), TermKey);
    ExtractParamIsFirstValue(LeadReport.Cell(row, LeadReport.SourceColumn), ContentKey);
    var t := TaggedRow(row, x, None, Some(y));
    assert TagOf(row, ExtractParam) == Some(t);
    assert [] + [row] == [row];
    TaggedSnoc([], row, ExtractParam);
    assert Tagged([row]) == [t];
    OneTaggedRanked(t);
  }

  lemma OneTaggedRanked(t: TaggedRow)
    requires t.term != "" && t.content.Some? && t.content.value != ""
    ensures Unranked([t]) == [LeadReport.Summary(t.term, t.content.value, 1)]
    ensures SortDesc(Unranked([t]), LeadsKey) == Unranked([t])
  {
    var x, y := t.term, t.content.value;
    assert [t][..0] == [];
    assert ContentsOf([t], x) == [y];
    assert TermsOf([t]) == [x];
    OneValueCounted(x);
    OneValueCounted(y);
    assert [x][..0] == [];
    assert WithContent([t], [x]) == [x];
    assert Unranked([t]) == [LeadReport.Summary(x, y, 1)];
    assert [LeadReport.Summary(x, y, 1)][..0] == [];
  }

  lemma OneValueCounted(v: string)
    ensures Distinct([v]) == [v]
    ensures MostCommon([v]) == v
    ensures Occurrences([v], v) == 1
  {
    assert [v][..0] == [];
  }
}
