/** The query part of a URL and its `parse_qs` reading, as Python's `urllib.parse` gives
    them to the extractors: `urlparse(url).query`, then `parse_qs(query)` with its
    defaults (`&` separates pairs, pairs without `=` or with an empty value are dropped,
    names and values are form-decoded, and `d.get(name, [default])[0]` is the first value). */
module UrlQuery {
  import opened Values
  import FormDecoding

  /** `s.find(c)`: the index of the first `c`, or -1. */
  function Find(s: string, c: char): (r: int)
    ensures -1 <= r < |s|
    ensures r == -1 <==> c !in s
    ensures r >= 0 ==> s[r] == c && c !in s[..r]
  {
    if s == [] then -1
    else if s[0] == c then 0
    else
      var r := Find(s[1..], c);
      assert r >= 0 ==> s[..r + 1] == [s[0]] + s[1..][..r];
      if r < 0 then -1 else r + 1
  }

  /** `s.split(sep)`: the pieces between the separators, at least one. */
  function SplitOn(s: string, sep: char): (parts: seq<string>)
    ensures |parts| >= 1
    decreases |s|
  {
    var i := Find(s, sep);
    if i < 0 then [s] else [s[..i]] + SplitOn(s[i + 1..], sep)
  }

  /** `needle in hay` for strings. */
  predicate Contains(hay: string, needle: string)
  {
    exists i :: 0 <= i <= |hay| - |needle| && OccursAt(hay, needle, i)
  }

  predicate OccursAt(hay: string, needle: string, i: int)
    requires 0 <= i <= |hay| - |needle|
  {
    hay[i..i + |needle|] == needle
  }

  /** The characters that `urlsplit` strips from the left of a URL (C0 controls and space). */
  predicate IsC0OrSpace(c: char)
  {
    c as int <= 0x20
  }

  /** `url.lstrip(_WHATWG_C0_CONTROL_OR_SPACE)`. */
  function LStrip(s: string): (r: string)
    ensures |r| <= |s| && r == s[|s| - |r|..]
    ensures r != [] ==> !IsC0OrSpace(r[0])
    ensures forall i :: 0 <= i < |s| - |r| ==> IsC0OrSpace(s[i])
  {
    if s != [] && IsC0OrSpace(s[0]) then LStrip(s[1..]) else s
  }

  /** The characters `urlsplit` deletes wherever they occur. */
  predicate IsUnsafe(c: char)
  {
    c == '\t' || c == '\r' || c == '\n'
  }

  /** `url.replace('\t', '').replace('\r', '').replace('\n', '')`. */
  function RemoveUnsafe(s: string): (r: string)
    ensures forall c :: c in r ==> c in s && !IsUnsafe(c)
  {
    if s == [] then []
    else if IsUnsafe(s[0]) then RemoveUnsafe(s[1..])
    else [s[0]] + RemoveUnsafe(s[1..])
  }

  predicate IsAsciiLetter(c: char)
  {
    'a' <= c <= 'z' || 'A' <= c <= 'Z'
  }

  predicate IsSchemeChar(c: char)
  {
    IsAsciiLetter(c) || '0' <= c <= '9' || c == '+' || c == '-' || c == '.'
  }

  /** What `urlsplit` keeps after taking off a scheme: a scheme is the text before the
      first `:` when it is non-empty, starts with an ASCII letter and holds only scheme
      characters. */
  function AfterScheme(url: string): (rest: string)
    ensures |rest| <= |url| && rest == url[|url| - |rest|..]
    ensures '?' !in url[..|url| - |rest|] && '#' !in url[..|url| - |rest|]
  {
    var i := Find(url, ':');
    if i > 0 && IsAsciiLetter(url[0]) && forall j :: 0 <= j < i ==> IsSchemeChar(url[j]) then
      assert forall j :: 0 <= j <= i ==> url[..i + 1][j] == url[j];
      url[i + 1..]
    else url
  }

  predicate IsNetlocDelimiter(c: char)
  {
    c == '/' || c == '?' || c == '#'
  }

  /** End of the network location that `_splitnetloc(url, 2)` cuts out: the first `/`,
      `?` or `#` from index 2, or the end. */
  function NetlocEnd(rest: string): (e: nat)
    requires |rest| >= 2
    ensures 2 <= e <= |rest|
    ensures forall j :: 2 <= j < e ==> !IsNetlocDelimiter(rest[j])
    ensures e < |rest| ==> IsNetlocDelimiter(rest[e])
  {
    ScanDelimiter(rest, 2)
  }

  function ScanDelimiter(s: string, k: nat): (e: nat)
    requires k <= |s|
    ensures k <= e <= |s|
    ensures forall j :: k <= j < e ==> !IsNetlocDelimiter(s[j])
    ensures e < |s| ==> IsNetlocDelimiter(s[e])
    decreases |s| - k
  {
    if k == |s| || IsNetlocDelimiter(s[k]) then k else ScanDelimiter(s, k + 1)
  }

  /** The `ValueError("Invalid IPv6 URL")` condition of `urlsplit`. */
  predicate BracketsUnbalanced(netloc: string)
  {
    ('[' in netloc && ']' !in netloc) || (']' in netloc && '[' !in netloc)
  }

  /** Text before the first `c` (all of `s` when there is none). */
  function Before(s: string, c: char): (r: string)
  {
    var i := Find(s, c);
    if i < 0 then s else s[..i]
  }

  /** Text after the first `c` (empty when there is none). */
  function After(s: string, c: char): (r: string)
  {
    var i := Find(s, c);
    if i < 0 then "" else s[i + 1..]
  }

  /** `urlparse(url).query`, or `None` where `urlparse` raises for unbalanced brackets in
      the network location. Its other two checks of the network location (a bracketed host
      must be an IPv6 or IPvFuture address, and a non-ASCII one must not gain `/?#@:` under
      NFKC normalisation) are not modelled: such URLs get their query here. */
  function SplitQuery(url: string): (q: Option<string>)
  {
    SplitCleaned(RemoveUnsafe(LStrip(url)))
  }

  /** The rest of `urlsplit` once the URL is stripped and cleaned: scheme, network location
      (with its bracket check), fragment, query. */
  function SplitCleaned(cleaned: string): (q: Option<string>)
  {
    SplitAfterScheme(AfterScheme(cleaned))
  }

  function SplitAfterScheme(rest: string): (q: Option<string>)
  {
    if |rest| >= 2 && rest[..2] == "//" then
      var e := NetlocEnd(rest);
      if BracketsUnbalanced(rest[2..e]) then None
      else Some(After(Before(rest[e..], '#'), '?'))
    else
      Some(After(Before(rest, '#'), '?'))
  }

  /** `parse_qsl` on the pieces between the `&`s. */
  function PairsOf(fields: seq<string>): (pairs: seq<(string, string)>)
    ensures |pairs| <= |fields|
  {
    if fields == [] then []
    else
      var nv := fields[0];
      var i := Find(nv, '=');
      if i < 0 || i == |nv| - 1 then PairsOf(fields[1..])
      else [(FormDecoding.Decode(nv[..i]), FormDecoding.Decode(nv[i + 1..]))] + PairsOf(fields[1..])
  }

  /** `parse_qsl(qs)`: the decoded (name, value) pairs, in query order. */
  function ParseQsl(qs: string): seq<(string, string)>
  {
    if qs == "" then [] else PairsOf(SplitOn(qs, '&'))
  }

  /** `parse_qsl(urlparse(url).query)`, or `None` where `SplitQuery` finds that `urlparse`
      raises. */
  function QueryPairs(url: string): Option<seq<(string, string)>>
  {
    match SplitQuery(url)
    case None => None
    case Some(q) => Some(ParseQsl(q))
  }

  /** `parse_qs(...).get(key, [default])[0]` as an option: the value of the first pair
      named `key`. */
  function FirstValue(pairs: seq<(string, string)>, key: string): Option<string>
  {
    if pairs == [] then None
    else if pairs[0].0 == key then Some(pairs[0].1)
    else FirstValue(pairs[1..], key)
  }

  /** `FirstValue` is the value of the earliest pair with that name, and is absent exactly
      when no pair has that name. */
  lemma {:induction false} FirstValueIsEarliest(pairs: seq<(string, string)>, key: string)
    ensures FirstValue(pairs, key).None? <==> forall j :: 0 <= j < |pairs| ==> pairs[j].0 != key
    ensures FirstValue(pairs, key).Some? ==>
      exists i :: 0 <= i < |pairs| && pairs[i] == (key, FirstValue(pairs, key).value)
        && forall j :: 0 <= j < i ==> pairs[j].0 != key
  {
    if pairs != [] && pairs[0].0 != key {
      FirstValueIsEarliest(pairs[1..], key);
      if FirstValue(pairs, key).Some? {
        var i :| 0 <= i < |pairs[1..]| && pairs[1..][i] == (key, FirstValue(pairs, key).value)
          && forall j :: 0 <= j < i ==> pairs[1..][j].0 != key;
        assert pairs[i + 1] == (key, FirstValue(pairs, key).value);
        assert forall j :: 0 <= j < i + 1 ==> pairs[j].0 != key by {
          forall j | 0 <= j < i + 1 ensures pairs[j].0 != key {
            if j > 0 { assert pairs[j] == pairs[1..][j - 1]; }
          }
        }
      } else {
        forall j | 0 <= j < |pairs| ensures pairs[j].0 != key {
          if j > 0 { assert pairs[j] == pairs[1..][j - 1]; }
        }
      }
    }
  }

  /** Every value `parse_qsl` keeps is non-empty, so `parse_qs`'s first value for a name is
      also its first non-blank value and is always truthy. */
  lemma {:induction false} PairsOfValuesNonEmpty(fields: seq<string>)
    ensures forall p :: p in PairsOf(fields) ==> p.1 != ""
  {
    if fields != [] {
      PairsOfValuesNonEmpty(fields[1..]);
      var nv := fields[0];
      var i := Find(nv, '=');
      if !(i < 0 || i == |nv| - 1) {
        FormDecoding.DecodeNonEmpty(nv[i + 1..]);
      }
    }
  }

  lemma {:induction false} FirstValueNonEmpty(url: string, key: string)
    requires QueryPairs(url).Some?
    ensures FirstValue(QueryPairs(url).value, key).Some? ==> FirstValue(QueryPairs(url).value, key).value != ""
  {
    var pairs := QueryPairs(url).value;
    if SplitQuery(url).value != "" {
      PairsOfValuesNonEmpty(SplitOn(SplitQuery(url).value, '&'));
    }
    FirstValueIsEarliest(pairs, key);
    if FirstValue(pairs, key).Some? {
      var i :| 0 <= i < |pairs| && pairs[i] == (key, FirstValue(pairs, key).value);
      assert pairs[i] in pairs;
    }
  }

  // ---- The query is the text after the first `?` and before the first `#` ----

  /** The query component of section 3.4 of RFC 3986, read off a string: the text after the
      first `?` of the part before the first `#`. */
  function QueryComponent(s: string): string
  {
    After(Before(s, '#'), '?')
  }

  lemma {:induction false} FindAfterPrefix(p: string, r: string, c: char)
    requires c !in p
    ensures Find(p + r, c) == (if c in r then |p| + Find(r, c) else -1)
  {
    if p != [] {
      assert (p + r)[1..] == p[1..] + r;
      assert c !in p[1..] by {
        forall i | 0 <= i < |p[1..]| ensures p[1..][i] != c { assert p[1..][i] == p[i + 1]; }
      }
      FindAfterPrefix(p[1..], r, c);
    } else {
      assert p + r == r;
    }
  }

  /** A prefix without `?` or `#` does not change the query component. */
  lemma QueryComponentSkipsPrefix(p: string, r: string)
    requires '?' !in p && '#' !in p
    ensures QueryComponent(p + r) == QueryComponent(r)
  {
    BeforeSkipsPrefix(p, r, '#');
    AfterSkipsPrefix(p, Before(r, '#'), '?');
  }

  lemma BeforeSkipsPrefix(p: string, r: string, c: char)
    requires c !in p
    ensures Before(p + r, c) == p + Before(r, c)
  {
    FindAfterPrefix(p, r, c);
    if c in r {
      assert (p + r)[..|p| + Find(r, c)] == p + r[..Find(r, c)];
    }
  }

  lemma AfterSkipsPrefix(p: string, r: string, c: char)
    requires c !in p
    ensures After(p + r, c) == After(r, c)
  {
    FindAfterPrefix(p, r, c);
    if c in r {
      var i := Find(r, c);
      SuffixOfConcat(p, r, i + 1);
    }
  }

  lemma SuffixOfConcat(p: string, r: string, k: nat)
    requires k <= |r|
    ensures (p + r)[|p| + k..] == r[k..]
  {
  }

  lemma {:induction false} RemoveUnsafeAppend(p: string, r: string)
    ensures RemoveUnsafe(p + r) == RemoveUnsafe(p) + RemoveUnsafe(r)
  {
    if p != [] {
      assert (p + r)[1..] == p[1..] + r;
      RemoveUnsafeAppend(p[1..], r);
    } else {
      assert p + r == r;
    }
  }

  lemma NetlocSkipped(rest: string)
    requires SplitAfterScheme(rest).Some?
    ensures SplitAfterScheme(rest).value == QueryComponent(rest)
  {
    if |rest| >= 2 && rest[..2] == "//" {
      var e := NetlocEnd(rest);
      var netloc := rest[..e];
      assert rest == netloc + rest[e..];
      assert '?' !in netloc && '#' !in netloc by {
        forall j | 0 <= j < e ensures netloc[j] != '?' && netloc[j] != '#' {
          if j < 2 { assert rest[..2][j] == rest[j]; }
        }
      }
      QueryComponentSkipsPrefix(netloc, rest[e..]);
    }
  }

  lemma CleanedQueryIsQueryComponent(cleaned: string)
    requires SplitCleaned(cleaned).Some?
    ensures SplitCleaned(cleaned).value == QueryComponent(cleaned)
  {
    var rest := AfterScheme(cleaned);
    var scheme := cleaned[..|cleaned| - |rest|];
    assert cleaned == scheme + rest;
    QueryComponentSkipsPrefix(scheme, rest);
    NetlocSkipped(rest);
  }

  lemma StrippedQueryComponent(url: string)
    ensures QueryComponent(RemoveUnsafe(LStrip(url))) == QueryComponent(RemoveUnsafe(url))
  {
    var stripped := LStrip(url);
    var blanks := url[..|url| - |stripped|];
    assert url == blanks + stripped;
    RemoveUnsafeAppend(blanks, stripped);
    assert forall c :: c in RemoveUnsafe(blanks) ==> c in blanks;
    assert '?' !in blanks && '#' !in blanks by {
      forall i | 0 <= i < |blanks| ensures blanks[i] != '?' && blanks[i] != '#' {
        assert IsC0OrSpace(url[i]);
      }
    }
    QueryComponentSkipsPrefix(RemoveUnsafe(blanks), RemoveUnsafe(stripped));
  }

  /** When `urlparse` does not raise, its query is the query component of the URL once
      tabs and line breaks are deleted: scheme, network location and the stripped leading
      blanks hold no `?` and no `#`. */
  lemma SplitQueryIsQueryComponent(url: string)
    requires SplitQuery(url).Some?
    ensures SplitQuery(url).value == QueryComponent(RemoveUnsafe(url))
  {
    CleanedQueryIsQueryComponent(RemoveUnsafe(LStrip(url)));
    StrippedQueryComponent(url);
  }
}
