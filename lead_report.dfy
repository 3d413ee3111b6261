/** `process_csv` of app.py, the analysis behind the upload and download routes: from the
    rows of an uploaded CSV it keeps the leads whose `SORGENTE` URL carries a `utm_term`,
    counts the leads per term, names each term after its most frequent `utm_content`, and
    returns the per-term summary (in order of first appearance) together with every lead
    annotated with its term's name. */
module LeadReport {
  import opened Values
  import opened UrlQuery
  import opened UtmExtract
  import opened Tally

  /** A CSV row as `csv.DictReader` yields it: column name to cell text. */
  type Row = map<string, string>

  const SourceColumn: string := "SORGENTE"
  const TermMarker: string := "utm_term="

  const MissingColumnError: string := "Il file deve contenere una colonna \"SORGENTE\""
  const NoLeadsError: string := "Nessun URL con utm_term trovato nel file"
  /** An empty file has no header: `reader.fieldnames` is `None` and the membership test
      raises `TypeError`, which the outer handler reports with this message. */
  const NoHeaderError: string := "Errore nel processare il file: argument of type 'NoneType' is not iterable"

  /** One lead kept from the file: the three UTM values and the row's date, time and email. */
  datatype Lead = Lead(term: string, campaign: string, content: string, date: string, time: string, email: string)

  /** A lead of the detailed output, carrying the name given to its term. */
  datatype NamedLead = NamedLead(lead: Lead, name: string)

  /** One line of the summary: a term, its ad name and its number of leads. */
  datatype Summary = Summary(term: string, name: string, leads: nat)

  datatype Report = Report(
    results: seq<Summary>,
    detailed: seq<NamedLead>,
    totalRows: nat,
    rowsWithTerm: nat,
    uniqueAds: nat)

  /** The dict `process_csv` returns: the analysis, or `{'error': ...}`. */
  datatype Analysis = Analysed(report: Report) | Refused(error: string)

  /** `row.get(key, '')`. */
  function Cell(row: Row, key: string): (r: string)
    ensures key !in row ==> r == ""
    ensures key in row ==> r == row[key]
  {
    if key in row then row[key] else ""
  }

  /** `query_params.get(key, [''])[0]`. */
  function FirstOrEmpty(pairs: seq<(string, string)>, key: string): string
  {
    match FirstValue(pairs, key)
    case None => ""
    case Some(v) => v
  }

  /** The lead a row contributes, if any: its URL must contain `utm_term=`, parse without
      raising, and carry a non-empty `utm_term`. */
  function LeadOf(row: Row): Option<Lead>
  {
    var url := Cell(row, SourceColumn);
    if !Contains(url, TermMarker) then None
    else
      match QueryPairs(url)
      case None => None
      case Some(pairs) =>
        var term := FirstOrEmpty(pairs, TermKey);
        if term == "" then None
        else Some(Lead(term, FirstOrEmpty(pairs, CampaignKey), FirstOrEmpty(pairs, ContentKey),
                       Cell(row, "Data"), Cell(row, "Ora"), Cell(row, "Email")))
  }

  /** The leads of `rows`, in row order, when each row gives the lead `lead` says. */
  function LeadsBy(rows: seq<Row>, lead: Row -> Option<Lead>): seq<Lead>
  {
    if rows == [] then []
    else
      var init := LeadsBy(rows[..|rows| - 1], lead);
      match lead(rows[|rows| - 1])
      case None => init
      case Some(l) => init + [l]
  }

  /** The leads of `rows`, in row order. */
  function Leads(rows: seq<Row>): seq<Lead>
  {
    LeadsBy(rows, LeadOf)
  }

  /** `[item['utm_term'] for item in utm_data]`. */
  function Terms(leads: seq<Lead>): (ts: seq<string>)
    ensures |ts| == |leads|
    ensures forall i :: 0 <= i < |leads| ==> ts[i] == leads[i].term
  {
    seq(|leads|, i requires 0 <= i < |leads| => leads[i].term)
  }

  /** The non-empty contents of the leads of `term`, in lead order. */
  function ContentsFor(leads: seq<Lead>, term: string): seq<string>
  {
    if leads == [] then []
    else
      var init := ContentsFor(leads[..|leads| - 1], term);
      var last := leads[|leads| - 1];
      if last.term == term && last.content != "" then init + [last.content] else init
  }

  /** The name `process_csv` gives a term: its most common content, or the term itself. */
  function NameFor(leads: seq<Lead>, term: string): string
  {
    var contents := ContentsFor(leads, term);
    if contents == [] then term
    else
      var m := MostCommon(contents);
      if m != "" then m else term
  }

  function SummaryOf(leads: seq<Lead>, term: string): Summary
  {
    Summary(term, NameFor(leads, term), Occurrences(Terms(leads), term))
  }

  /** One summary line per key of `ks`, in that order. */
  function Summaries(leads: seq<Lead>, ks: seq<string>): (r: seq<Summary>)
    ensures |r| == |ks|
  {
    if ks == [] then [] else Summaries(leads, ks[..|ks| - 1]) + [SummaryOf(leads, ks[|ks| - 1])]
  }

  /** `leads` with the name of each one's term attached. */
  function Named(leads: seq<Lead>, all: seq<Lead>): (r: seq<NamedLead>)
    ensures |r| == |leads|
  {
    if leads == [] then []
    else
      var last := leads[|leads| - 1];
      Named(leads[..|leads| - 1], all) + [NamedLead(last, NameFor(all, last.term))]
  }

  /** The report `process_csv` returns once the file has a `SORGENTE` column and at least
      one lead. */
  function Analyse(rows: seq<Row>): Report
  {
    var leads := Leads(rows);
    var ks := Distinct(Terms(leads));
    Report(Summaries(leads, ks), Named(leads, leads), |rows|, |leads|, |ks|)
  }

  /** The row loop of `process_csv`: every row whose URL contains `utm_term=`, parses
      and has a non-empty `utm_term` contributes one lead, in row order. */
  method CollectLeads(rows: seq<Row>) returns (leads: seq<Lead>)
    ensures leads == Leads(rows)
  {
    leads := [];
    for i := 0 to |rows|
      invariant leads == Leads(rows[..i])
    {
      assert rows[..i + 1][..i] == rows[..i];
      var row := rows[i];
      var url := Cell(row, SourceColumn);
      if Contains(url, TermMarker) {
        var parsed := QueryPairs(url);
        if parsed.Some? {
          var pairs := parsed.value;
          var term := FirstOrEmpty(pairs, TermKey);
          if term != "" {
            leads := leads + [Lead(term, FirstOrEmpty(pairs, CampaignKey), FirstOrEmpty(pairs, ContentKey),
                                   Cell(row, "Data"), Cell(row, "Ora"), Cell(row, "Email"))];
          }
        }
      }
    }
    assert rows[..|rows|] == rows;
  }

  /** The loop that fills `utm_mapping`: each counted term gets its name. */
  method NameTerms(leads: seq<Lead>, keys: seq<string>) returns (mapping: map<string, string>)
    ensures forall k :: k in mapping <==> k in keys
    ensures forall k :: k in mapping ==> mapping[k] == NameFor(leads, k)
  {
    mapping := map[];
    for j := 0 to |keys|
      invariant forall k :: k in mapping <==> k in keys[..j]
      invariant forall k :: k in mapping ==> mapping[k] == NameFor(leads, k)
    {
      var term := keys[j];
      var contents := ContentsFor(leads, term);
      var name;
      if contents != [] {
        var m := MostCommonValue(contents);
        name := if m != "" then m else term;
      } else {
        name := term;
      }
      assert name == NameFor(leads, term);
      NamedKeysStep(mapping, keys, j, mapping[term := name], leads);
      mapping := mapping[term := name];
    }
    assert keys[..|keys|] == keys;
  }

  /** One step of `NameTerms`: naming the next key keeps the mapping's keys and names right. */
  lemma NamedKeysStep(mapping: map<string, string>, keys: seq<string>, j: nat, after: map<string, string>, leads: seq<Lead>)
    requires j < |keys| && after == mapping[keys[j] := NameFor(leads, keys[j])]
    requires forall k :: k in mapping <==> k in keys[..j]
    requires forall k :: k in mapping ==> mapping[k] == NameFor(leads, k)
    ensures forall k :: k in after <==> k in keys[..j + 1]
    ensures forall k :: k in after ==> after[k] == NameFor(leads, k)
  {
    assert keys[..j + 1] == keys[..j] + [keys[j]];
  }

  /** The loop that builds `results_data` from the counter and the mapping. */
  method SummaryLines(leads: seq<Lead>, keys: seq<string>, counts: map<string, nat>, mapping: map<string, string>)
    returns (results: seq<Summary>)
    requires forall k :: k in keys ==> k in counts && counts[k] == Occurrences(Terms(leads), k)
    requires forall k :: k in keys ==> k in mapping && mapping[k] == NameFor(leads, k)
    ensures results == Summaries(leads, keys)
  {
    results := [];
    for j := 0 to |keys|
      invariant results == Summaries(leads, keys[..j])
    {
      assert keys[..j + 1][..j] == keys[..j];
      results := results + [Summary(keys[j], mapping[keys[j]], counts[keys[j]])];
    }
    assert keys[..|keys|] == keys;
  }

  /** The loop that writes `nome_inserzione` into every lead. */
  method AttachNames(leads: seq<Lead>, mapping: map<string, string>) returns (detailed: seq<NamedLead>)
    requires forall i :: 0 <= i < |leads| ==> leads[i].term in mapping
    requires forall k :: k in mapping ==> mapping[k] == NameFor(leads, k)
    ensures detailed == Named(leads, leads)
  {
    detailed := [];
    for j := 0 to |leads|
      invariant detailed == Named(leads[..j], leads)
    {
      assert leads[..j + 1][..j] == leads[..j];
      detailed := detailed + [NamedLead(leads[j], mapping[leads[j].term])];
    }
    assert leads[..|leads|] == leads;
  }

  /** `process_csv`: the header check first, then the leads, the refusal when there are
      none, the term counter, the names, the summary and the annotated leads. */
  method ProcessCsv(header: Option<seq<string>>, rows: seq<Row>) returns (out: Analysis)
    ensures header.None? ==> out == Refused(NoHeaderError)
    ensures header.Some? && SourceColumn !in header.value ==> out == Refused(MissingColumnError)
    ensures header.Some? && SourceColumn in header.value && Leads(rows) == [] ==> out == Refused(NoLeadsError)
    ensures header.Some? && SourceColumn in header.value && Leads(rows) != [] ==> out == Analysed(Analyse(rows))
  {
    if header.None? {
      return Refused(NoHeaderError);
    }
    if SourceColumn !in header.value {
      return Refused(MissingColumnError);
    }
    var leads := CollectLeads(rows);
    if leads == [] {
      return Refused(NoLeadsError);
    }
    var terms := Terms(leads);
    var keys, counts := Count(terms);
    DistinctMembers(terms);
    var mapping := NameTerms(leads, keys);
    var results := SummaryLines(leads, keys, counts, mapping);
    assert forall i :: 0 <= i < |leads| ==> terms[i] in keys;
    var detailed := AttachNames(leads, mapping);
    return Analysed(Report(results, detailed, |rows|, |leads|, |keys|));
  }

  // ---- What the report states ----

  /** Total of the `numero_lead` column. */
  function TotalLeads(results: seq<Summary>): nat
  {
    if results == [] then 0 else TotalLeads(results[..|results| - 1]) + results[|results| - 1].leads
  }

  /** The inline parse of `process_csv` agrees with the extractors as intended: a row
      contributes a lead exactly when its URL contains `utm_term=` and carries a
      `utm_term`, and the lead holds the extracted values (`''` for an absent campaign or
      content) and the row's date, time and email (`''` when absent). */
  lemma LeadOfMatchesExtractors(row: Row)
    ensures LeadOf(row).Some? <==>
      Contains(Cell(row, SourceColumn), TermMarker) && ExtractParam(Cell(row, SourceColumn), TermKey).Some?
    ensures LeadOf(row).Some? ==>
      var url := Cell(row, SourceColumn);
      var l := LeadOf(row).value;
      Some(l.term) == ExtractParam(url, TermKey)
      && l.campaign == (if ExtractParam(url, CampaignKey).Some? then ExtractParam(url, CampaignKey).value else "")
      && l.content == (if ExtractParam(url, ContentKey).Some? then ExtractParam(url, ContentKey).value else "")
      && l.date == Cell(row, "Data") && l.time == Cell(row, "Ora") && l.email == Cell(row, "Email")
  {
    var url := Cell(row, SourceColumn);
    if QueryPairs(url).Some? {
      FirstValueNonEmpty(url, TermKey);
    }
  }

  lemma {:induction false} LeadsOfConcatenation(a: seq<Row>, b: seq<Row>, lead: Row -> Option<Lead>)
    ensures LeadsBy(a + b, lead) == LeadsBy(a, lead) + LeadsBy(b, lead)
    decreases |b|
  {
    if b == [] {
      assert a + b == a;
    } else {
      var init := b[..|b| - 1];
      LeadsOfConcatenation(a, init, lead);
      assert (a + b)[..|a + b| - 1] == a + init;
      assert (a + b)[|a + b| - 1] == b[|b| - 1];
    }
  }

  /** Leads keep the order of their rows, whichever way a row's lead is derived (`Leads`
      derives it by `LeadOf`): the leads of a file are the leads of its first part followed
      by those of the rest, and a single row gives its own lead or none. */
  lemma LeadsKeepRowOrder(a: seq<Row>, b: seq<Row>, row: Row, lead: Row -> Option<Lead>)
    ensures LeadsBy(a + b, lead) == LeadsBy(a, lead) + LeadsBy(b, lead)
    ensures LeadsBy([row], lead) == (if lead(row).Some? then [lead(row).value] else [])
  {
    LeadsOfConcatenation(a, b, lead);
    assert [row][..0] == [];
  }

  lemma {:induction false} SummariesIndexed(leads: seq<Lead>, ks: seq<string>)
    ensures forall i :: 0 <= i < |ks| ==> Summaries(leads, ks)[i] == SummaryOf(leads, ks[i])
    decreases |ks|
  {
    if ks != [] {
      SummariesIndexed(leads, ks[..|ks| - 1]);
    }
  }

  lemma {:induction false} NamedIndexed(leads: seq<Lead>, all: seq<Lead>)
    ensures forall i :: 0 <= i < |leads| ==> Named(leads, all)[i] == NamedLead(leads[i], NameFor(all, leads[i].term))
    decreases |leads|
  {
    if leads != [] {
      NamedIndexed(leads[..|leads| - 1], all);
    }
  }

  lemma {:induction false} TotalOfSummaries(leads: seq<Lead>, ks: seq<string>)
    ensures TotalLeads(Summaries(leads, ks)) == SumCounts(ks, Terms(leads))
    decreases |ks|
  {
    if ks != [] {
      TotalOfSummaries(leads, ks[..|ks| - 1]);
      assert Summaries(leads, ks)[..|ks| - 1] == Summaries(leads, ks[..|ks| - 1]);
    }
  }

  /** Every kept lead is counted once: the lead counts of the summary add up to the number
      of detailed leads, which is the `rows_with_utm_term` figure. */
  lemma LeadCountsAddUp(rows: seq<Row>)
    ensures TotalLeads(Analyse(rows).results) == |Analyse(rows).detailed|
    ensures |Analyse(rows).detailed| == Analyse(rows).rowsWithTerm
  {
    var leads := Leads(rows);
    TotalOfSummaries(leads, Distinct(Terms(leads)));
    SumOfCountsIsLength(Terms(leads));
  }

  /** The summary lists every term exactly once, in order of first appearance, each with
      at least one lead, and `unique_ads` is its length. */
  lemma EachTermOnce(rows: seq<Row>)
    ensures Analyse(rows).uniqueAds == |Analyse(rows).results|
    ensures forall t :: t in Terms(Leads(rows)) <==>
      exists i :: 0 <= i < |Analyse(rows).results| && Analyse(rows).results[i].term == t
    ensures forall i, j :: 0 <= i < j < |Analyse(rows).results| ==>
      Analyse(rows).results[i].term in Terms(Leads(rows)) &&
      Analyse(rows).results[j].term in Terms(Leads(rows)) &&
      FirstIndex(Terms(Leads(rows)), Analyse(rows).results[i].term)
        < FirstIndex(Terms(Leads(rows)), Analyse(rows).results[j].term)
    ensures forall i :: 0 <= i < |Analyse(rows).results| ==> Analyse(rows).results[i].leads >= 1
  {
    var leads := Leads(rows);
    SummaryTermsAreDistinctTerms(leads);
    SummaryTermsInOrder(leads);
  }

  lemma SummaryTermsAreDistinctTerms(leads: seq<Lead>)
    ensures forall t :: t in Terms(leads) <==>
      exists i :: 0 <= i < |Summaries(leads, Distinct(Terms(leads)))| && Summaries(leads, Distinct(Terms(leads)))[i].term == t
    ensures forall i :: 0 <= i < |Summaries(leads, Distinct(Terms(leads)))| ==>
      Summaries(leads, Distinct(Terms(leads)))[i].leads >= 1
  {
    DistinctMembers(Terms(leads));
    SummaryTermsAreKeys(leads, Distinct(Terms(leads)));
  }

  lemma SummaryTermsAreKeys(leads: seq<Lead>, ks: seq<string>)
    requires forall k :: k in ks <==> k in Terms(leads)
    ensures forall t :: t in Terms(leads) <==> exists i :: 0 <= i < |Summaries(leads, ks)| && Summaries(leads, ks)[i].term == t
    ensures forall i :: 0 <= i < |Summaries(leads, ks)| ==> Summaries(leads, ks)[i].leads >= 1
  {
    SummariesOfTerms(leads, ks);
    LinesNameKeys(Summaries(leads, ks), ks, Terms(leads));
  }

  /** Lines that name the keys `ks`, in order, name exactly the members of `terms` when
      `ks` and `terms` have the same members. */
  lemma LinesNameKeys(lines: seq<Summary>, ks: seq<string>, terms: seq<string>)
    requires |lines| == |ks| && forall i :: 0 <= i < |ks| ==> lines[i].term == ks[i]
    requires forall k :: k in ks <==> k in terms
    ensures forall t :: t in terms <==> exists i :: 0 <= i < |lines| && lines[i].term == t
  {
    forall t | t in terms ensures exists i :: 0 <= i < |lines| && lines[i].term == t {
      var i :| 0 <= i < |ks| && ks[i] == t;
      assert lines[i].term == t;
    }
    forall i | 0 <= i < |lines| ensures lines[i].term in terms {
      assert ks[i] in ks;
    }
  }

  /** The summary lines of keys that are terms name those keys, in order, each with at
      least one lead. */
  lemma SummariesOfTerms(leads: seq<Lead>, ks: seq<string>)
    requires forall k :: k in ks ==> k in Terms(leads)
    ensures |Summaries(leads, ks)| == |ks|
    ensures forall i :: 0 <= i < |ks| ==> Summaries(leads, ks)[i].term == ks[i]
    ensures forall i :: 0 <= i < |Summaries(leads, ks)| ==> Summaries(leads, ks)[i].leads >= 1
  {
    SummariesIndexed(leads, ks);
    forall i | 0 <= i < |ks| ensures Summaries(leads, ks)[i].leads >= 1 {
      OccurrencesOfMember(Terms(leads), ks[i]);
    }
  }

  lemma SummaryTermsInOrder(leads: seq<Lead>)
    ensures forall i, j :: 0 <= i < j < |Summaries(leads, Distinct(Terms(leads)))| ==>
      Summaries(leads, Distinct(Terms(leads)))[i].term in Terms(leads) &&
      Summaries(leads, Distinct(Terms(leads)))[j].term in Terms(leads) &&
      FirstIndex(Terms(leads), Summaries(leads, Distinct(Terms(leads)))[i].term)
        < FirstIndex(Terms(leads), Summaries(leads, Distinct(Terms(leads)))[j].term)
  {
    var terms := Terms(leads);
    var ks := Distinct(terms);
    var results := Summaries(leads, ks);
    SummariesIndexed(leads, ks);
    DistinctInFirstAppearanceOrder(terms);
    forall i, j | 0 <= i < j < |results|
      ensures results[i].term in terms && results[j].term in terms &&
        FirstIndex(terms, results[i].term) < FirstIndex(terms, results[j].term)
    {
      assert results[i].term == ks[i] && results[j].term == ks[j];
    }
  }

  lemma {:induction false} ContentsForMembers(leads: seq<Lead>, term: string)
    ensures forall c :: c in ContentsFor(leads, term) <==>
      exists i :: 0 <= i < |leads| && leads[i].term == term && leads[i].content == c && c != ""
    decreases |leads|
  {
    if leads != [] {
      var init := leads[..|leads| - 1];
      ContentsForMembers(init, term);
      forall c | (exists i :: 0 <= i < |leads| && leads[i].term == term && leads[i].content == c && c != "")
        ensures c in ContentsFor(leads, term)
      {
        var i :| 0 <= i < |leads| && leads[i].term == term && leads[i].content == c && c != "";
        if i < |init| {
          assert init[i] == leads[i];
        }
      }
    }
  }

  /** A term's name is its most frequent non-empty content, ties going to the content met
      first, or the term itself when none of its leads has a content. */
  lemma NameIsMostFrequentContent(leads: seq<Lead>, term: string)
    ensures ContentsFor(leads, term) == [] ==> NameFor(leads, term) == term
    ensures ContentsFor(leads, term) != [] ==>
      var contents := ContentsFor(leads, term);
      var name := NameFor(leads, term);
      name == MostCommon(contents)
      && (exists i :: 0 <= i < |leads| && leads[i].term == term && leads[i].content == name)
      && (forall c :: c in contents ==> Occurrences(contents, c) <= Occurrences(contents, name))
      && (forall i :: 0 <= i < |contents| && Occurrences(contents, contents[i]) == Occurrences(contents, name) ==>
            name in contents[..i + 1])
  {
    var contents := ContentsFor(leads, term);
    if contents != [] {
      MostCommonIsFirstMode(contents);
      ContentsForMembers(leads, term);
    }
  }

  /** Every detailed lead is the lead of the same position and carries the name that the
      summary line of its term shows. */
  lemma DetailCarriesTermName(rows: seq<Row>)
    ensures |Analyse(rows).detailed| == |Leads(rows)|
    ensures forall i :: 0 <= i < |Analyse(rows).detailed| ==>
      Analyse(rows).detailed[i].lead == Leads(rows)[i] &&
      exists j :: 0 <= j < |Analyse(rows).results| &&
        Analyse(rows).results[j].term == Analyse(rows).detailed[i].lead.term &&
        Analyse(rows).results[j].name == Analyse(rows).detailed[i].name
  {
    var leads := Leads(rows);
    var terms := Terms(leads);
    var ks := Distinct(terms);
    var r := Analyse(rows);
    NamedIndexed(leads, leads);
    SummariesIndexed(leads, ks);
    DistinctMembers(terms);
    forall i | 0 <= i < |r.detailed|
      ensures exists j :: (0 <= j < |r.results| && r.results[j].term == r.detailed[i].lead.term &&
        r.results[j].name == r.detailed[i].name)
    {
      assert terms[i] in ks;
      var j :| 0 <= j < |ks| && ks[j] == terms[i];
      assert r.results[j] == SummaryOf(leads, ks[j]);
    }
  }
}
