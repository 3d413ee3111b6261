/** The UTM extractors of app.py (`extract_utm_term_from_url`,
    `extract_campaign_name_from_url`, `extract_content_name_from_url`) and of
    extract_utm_term.py. All of them read one parameter of the URL's query. The app.py
    ones, and the campaign and content ones of the script, start with `pd.isna(url)`
    although `pd` is never imported: as written they raise `NameError` on every call. */
module UtmExtract {
  import opened Values
  import opened UrlQuery
  import FormDecoding

  /** Result of a Python call that may raise. */
  datatype Outcome<+T> = Returned(value: T) | Raised(error: string)

  const PdNameError: string := "name 'pd' is not defined"

  const TermKey: string := "utm_term"
  const CampaignKey: string := "utm_campaign"
  const ContentKey: string := "utm_content"

  /** app.py's three extractors (and the script's campaign and content extractors) as
      written: the guard `pd.isna(url)` stands outside the `try`, so the `NameError` for
      the missing `pandas` import escapes to the caller whatever the URL. */
  function ExtractAsWritten(url: string, key: string): (r: Outcome<Option<string>>)
  {
    Raised(PdNameError)
  }

  /** The extractors as evidently intended (with `pd` imported, `pd.isna` of a string is
      false): the first value of `key` in the URL's query, `None` when `key` is absent or
      when `urlparse` raises (the bare `except`) on unbalanced brackets. */
  function ExtractParam(url: string, key: string): Option<string>
  {
    match QueryPairs(url)
    case None => None
    case Some(pairs) => FirstValue(pairs, key)
  }

  /** The extractor answers `None` when parsing raises or no pair has the name; otherwise
      it answers the non-blank value of the earliest pair with that name. */
  lemma ExtractParamIsFirstValue(url: string, key: string)
    ensures QueryPairs(url).None? ==> ExtractParam(url, key).None?
    ensures QueryPairs(url).Some? ==>
      (ExtractParam(url, key).None? <==> forall j :: 0 <= j < |QueryPairs(url).value| ==> QueryPairs(url).value[j].0 != key)
    ensures ExtractParam(url, key).Some? ==>
      var v := ExtractParam(url, key).value;
      v != "" &&
      exists i :: 0 <= i < |QueryPairs(url).value| && QueryPairs(url).value[i] == (key, v)
        && forall j :: 0 <= j < i ==> QueryPairs(url).value[j].0 != key
  {
    if QueryPairs(url).Some? {
      FirstValueNonEmpty(url, key);
      EarliestNonBlank(QueryPairs(url).value, key, ExtractParam(url, key));
    }
  }

  lemma EarliestNonBlank(pairs: seq<(string, string)>, key: string, r: Option<string>)
    requires r == FirstValue(pairs, key) && (r.Some? ==> r.value != "")
    ensures r.None? <==> forall j :: 0 <= j < |pairs| ==> pairs[j].0 != key
    ensures r.Some? ==>
      exists i :: 0 <= i < |pairs| && pairs[i] == (key, r.value)
        && forall j :: 0 <= j < i ==> pairs[j].0 != key
  {
    FirstValueIsEarliest(pairs, key);
  }

  /** extract_utm_term.py's `extract_utm_term_from_url` (lines 6-20): `None` for an empty
      URL, otherwise the first `utm_term` value, `None` when absent or when parsing raises.
      (A non-string cell cannot occur: rows are maps from strings to strings.) */
  function ScriptExtractTerm(url: string): (r: Option<string>)
  {
    if url == "" then None
    else
      match QueryPairs(url)
      case None => None
      case Some(pairs) => FirstValue(pairs, TermKey)
  }

  /** The script's guard for the empty URL changes nothing: an empty URL has an empty
      query, so the script's term extractor agrees with the intended app.py one on every
      string. */
  lemma ScriptExtractorAgrees(url: string)
    ensures ScriptExtractTerm(url) == ExtractParam(url, TermKey)
  {
    if url == "" {
      assert AfterScheme("") == "";
      assert SplitQuery("") == Some("");
    }
  }

  // ---- A URL carrying `utm_term=X&utm_content=Y` yields X and Y ----

  /** A parameter value that reaches `parse_qs` unchanged: no separator, escape, plus,
      fragment mark or character `urlsplit` deletes. */
  predicate PlainValue(x: string)
  {
    x != "" && '&' !in x && '%' !in x && '+' !in x && '#' !in x && NoUnsafe(x)
  }

  predicate NoUnsafe(s: string)
  {
    forall i :: 0 <= i < |s| ==> !IsUnsafe(s[i])
  }

  lemma {:induction false} RemoveUnsafeKeeps(s: string)
    requires NoUnsafe(s)
    ensures RemoveUnsafe(s) == s
  {
    if s != [] {
      assert NoUnsafe(s[1..]) by {
        forall i | 0 <= i < |s[1..]| ensures !IsUnsafe(s[1..][i]) { assert s[1..][i] == s[i + 1]; }
      }
      RemoveUnsafeKeeps(s[1..]);
      assert s == [s[0]] + s[1..];
    }
  }

  /** An ASCII URL without brackets never makes `urlsplit` raise: its bracket checks need a
      bracket in the network location, and its NFKC check of the network location returns
      at once on ASCII text. */
  lemma NoBracketsNoRaise(url: string)
    requires '[' !in url && ']' !in url
    requires FormDecoding.AllAscii(url)
    ensures SplitQuery(url).Some?
  {
    var stripped := LStrip(url);
    NoBracketsInSuffix(url, |url| - |stripped|);
    var cleaned := RemoveUnsafe(stripped);
    var rest := AfterScheme(cleaned);
    NoBracketsInSuffix(cleaned, |cleaned| - |rest|);
    NoBracketsAfterScheme(rest);
  }

  lemma NoBracketsInSuffix(s: string, k: nat)
    requires k <= |s| && '[' !in s && ']' !in s
    ensures '[' !in s[k..] && ']' !in s[k..]
  {
    forall i | 0 <= i < |s[k..]| ensures s[k..][i] != '[' && s[k..][i] != ']' {
      assert s[k..][i] == s[k + i];
    }
  }

  lemma NoBracketsAfterScheme(rest: string)
    requires '[' !in rest && ']' !in rest
    ensures SplitAfterScheme(rest).Some?
  {
    if |rest| >= 2 && rest[..2] == "//" {
      NoBracketsInSuffix(rest[..NetlocEnd(rest)], 2);
      assert rest[2..NetlocEnd(rest)] == rest[..NetlocEnd(rest)][2..];
    }
  }

  lemma {:induction false} NoUnsafeAppend(a: string, b: string)
    requires NoUnsafe(a) && NoUnsafe(b)
    ensures NoUnsafe(a + b)
  {
    forall i | 0 <= i < |a + b| ensures !IsUnsafe((a + b)[i]) {
      if i < |a| { assert (a + b)[i] == a[i]; } else { assert (a + b)[i] == b[i - |a|]; }
    }
  }

  lemma SplitAtSeparator(a: string, b: string, c: char)
    requires c !in a && c !in b
    ensures SplitOn(a + [c] + b, c) == [a, b]
  {
    var s := a + [c] + b;
    assert s == a + ([c] + b);
    FindAfterPrefix(a, [c] + b, c);
    assert Find([c] + b, c) == 0;
    assert Find(s, c) == |a|;
    assert s[..|a|] == a && s[|a| + 1..] == b;
    assert SplitOn(b, c) == [b];
    assert SplitOn(s, c) == [a] + SplitOn(b, c);
  }

  /** One `name=value` piece whose name and value need no decoding parses to that pair. */
  lemma PlainPair(name: string, v: string, rest: seq<string>)
    requires '=' !in name && '%' !in name && '+' !in name
    requires PlainValue(v)
    ensures PairsOf([name + "=" + v] + rest) == [(name, v)] + PairsOf(rest)
  {
    var nv := name + "=" + v;
    assert nv == name + ("=" + v);
    FindAfterPrefix(name, "=" + v, '=');
    assert Find("=" + v, '=') == 0;
    assert nv[..|name|] == name && nv[|name| + 1..] == v;
    FormDecoding.DecodePlainIsIdentity(name);
    FormDecoding.DecodePlainIsIdentity(v);
    assert ([nv] + rest)[0] == nv && ([nv] + rest)[1..] == rest;
  }

  /** The query string `utm_term=X&utm_content=Y` parses to exactly those two pairs. */
  lemma TwoPairs(x: string, y: string, q: string)
    requires PlainValue(x) && PlainValue(y)
    requires q == "utm_term=" + x + "&utm_content=" + y
    ensures ParseQsl(q) == [(TermKey, x), (ContentKey, y)]
  {
    assert q == "utm_term" + "=" + x + "&" + "utm_content" + "=" + y;
    assert PlainName("utm_term") && PlainName("utm_content");
    TwoPlainPairs("utm_term", x, "utm_content", y);
  }

  predicate PlainName(name: string)
  {
    '=' !in name && '%' !in name && '+' !in name && '&' !in name
  }

  /** Two plain `name=value` pieces joined by `&` parse to those two pairs. */
  lemma TwoPlainPairs(n1: string, v1: string, n2: string, v2: string)
    requires PlainName(n1) && PlainName(n2) && PlainValue(v1) && PlainValue(v2)
    ensures ParseQsl(n1 + "=" + v1 + "&" + n2 + "=" + v2) == [(n1, v1), (n2, v2)]
  {
    var first := n1 + "=" + v1;
    var second := n2 + "=" + v2;
    var q := n1 + "=" + v1 + "&" + n2 + "=" + v2;
    assert q == first + ['&'] + second;
    assert '&' !in first by { CharNotInAppend(n1 + "=", v1, '&'); }
    assert '&' !in second by { CharNotInAppend(n2 + "=", v2, '&'); }
    SplitAtSeparator(first, second, '&');
    assert q != "";
    assert [first, second] == [first] + [second];
    assert [second] == [second] + [];
    PlainPair(n2, v2, []);
    PlainPair(n1, v1, [second]);
  }

  lemma CharNotInAppend(a: string, b: string, c: char)
    requires c !in a && c !in b
    ensures c !in a + b
  {
  }

  /** A URL `base?q` with a plain ASCII `base` has query `q`. The network location lies
      inside `base`, so neither of `urlsplit`'s checks of it raises. */
  lemma QueryAfterPlainBase(base: string, q: string)
    requires '?' !in base && '#' !in base && '[' !in base && ']' !in base && NoUnsafe(base)
    requires FormDecoding.AllAscii(base)
    requires '#' !in q && '[' !in q && ']' !in q && NoUnsafe(q)
    ensures QueryPairs(base + "?" + q) == Some(ParseQsl(q))
  {
    SplitAfterPlainBase(base, q);
  }

  lemma SplitAfterPlainBase(base: string, q: string)
    requires '?' !in base && '#' !in base && '[' !in base && ']' !in base && NoUnsafe(base)
    requires FormDecoding.AllAscii(base)
    requires '#' !in q && '[' !in q && ']' !in q && NoUnsafe(q)
    ensures SplitQuery(base + "?" + q) == Some(q)
  {
    var url := base + "?" + q;
    assert url == base + ("?" + q);
    assert '[' !in url && ']' !in url;
    var stripped := LStrip(url);
    NoBracketsInSuffix(url, |url| - |stripped|);
    var rest := AfterScheme(RemoveUnsafe(stripped));
    NoBracketsInSuffix(RemoveUnsafe(stripped), |RemoveUnsafe(stripped)| - |rest|);
    NoBracketsAfterScheme(rest);
    NoUnsafeAppend("?", q);
    NoUnsafeAppend(base, "?" + q);
    RemoveUnsafeKeeps(url);
    SplitQueryIsQueryComponent(url);
    QueryComponentSkipsPrefix(base, "?" + q);
    QueryComponentOfQuery(q);
  }

  lemma QueryComponentOfQuery(q: string)
    requires '#' !in q
    ensures QueryComponent("?" + q) == q
  {
    assert Find("?" + q, '#') == -1;
    assert Find("?" + q, '?') == 0;
  }

  lemma FirstValuesOfTwoPairs(x: string, y: string)
    ensures FirstValue([(TermKey, x), (ContentKey, y)], TermKey) == Some(x)
    ensures FirstValue([(TermKey, x), (ContentKey, y)], ContentKey) == Some(y)
    ensures FirstValue([(TermKey, x), (ContentKey, y)], CampaignKey) == None
  {
    var pairs := [(TermKey, x), (ContentKey, y)];
    assert pairs[1..] == [(ContentKey, y)];
    assert pairs[1..][1..] == [];
    assert FirstValue(pairs[1..][1..], CampaignKey) == None;
    assert TermKey != ContentKey && TermKey != CampaignKey && ContentKey != CampaignKey;
  }

  lemma PlainQuery(x: string, y: string)
    requires PlainValue(x) && PlainValue(y)
    requires '[' !in x && ']' !in x && '[' !in y && ']' !in y
    ensures var q := "utm_term=" + x + "&utm_content=" + y;
      '#' !in q && '[' !in q && ']' !in q && NoUnsafe(q)
  {
    NoUnsafeAppend("utm_term=", x);
    NoUnsafeAppend("utm_term=" + x, "&utm_content=");
    NoUnsafeAppend("utm_term=" + x + "&utm_content=", y);
  }

  /** For a URL `base?utm_term=X&utm_content=Y` with a plain ASCII `base`, the extractors
      return X and Y exactly, and no campaign. */
  lemma TermAndContentExtracted(base: string, x: string, y: string)
    requires PlainValue(x) && PlainValue(y)
    requires '?' !in base && '#' !in base && '[' !in base && ']' !in base && NoUnsafe(base)
    requires FormDecoding.AllAscii(base)
    requires '[' !in x && ']' !in x && '[' !in y && ']' !in y
    ensures ExtractParam(base + "?utm_term=" + x + "&utm_content=" + y, TermKey) == Some(x)
    ensures ExtractParam(base + "?utm_term=" + x + "&utm_content=" + y, ContentKey) == Some(y)
    ensures ExtractParam(base + "?utm_term=" + x + "&utm_content=" + y, CampaignKey) == None
  {
    var q := "utm_term=" + x + "&utm_content=" + y;
    var url := base + "?utm_term=" + x + "&utm_content=" + y;
    assert url == base + "?" + q;
    PlainQuery(x, y);
    QueryAfterPlainBase(base, q);
    TwoPairs(x, y, q);
    assert QueryPairs(url) == Some([(TermKey, x), (ContentKey, y)]);
    FirstValuesOfTwoPairs(x, y);
  }
}
