/**
 * adapters/rejestrio.py: look a company up on rejestr.io by tax number or by
 * name, and mine the company page for its identifiers, legal form, capital
 * group and the link to its financial statements.
 *
 * A page is what BeautifulSoup makes of the HTML: the text of the first
 * `<h1>` (if there is one), the page text joined with single spaces, and the
 * links that carry an `href`, in document order. An HTTP GET is the abstract
 * `fetch`; `lower`, `quotePlus` and `urljoin` stand for `str.lower`,
 * `urllib.parse.quote_plus` and `urllib.parse.urljoin`, and `groupMatch` for
 * the lazy "Grupa kapitałowa" pattern, giving its capture if it matches.
 */
module Rejestrio {
  import opened Common
  import opened Text

  /** An `<a href=...>`: its target and its text. */
  datatype Anchor = Anchor(href: string, text: string)

  /** A parsed HTML page. */
  datatype Page = Page(heading: Option<string>, text: string, anchors: seq<Anchor>)

  /** The dictionary `_parse_company_page` fills; `source_name` is always "rejestr.io". */
  datatype CompanyRecord = CompanyRecord(
    name: Option<string>,
    legalForm: Option<string>,
    nip: Option<string>,
    krs: Option<string>,
    groupName: Option<string>,
    employment: Option<string>,
    revenueValue: Option<string>,
    revenueYear: Option<string>,
    sourceUrl: Option<string>,
    rdfDocsUrl: Option<string>)

  const SourceName: string := "rejestr.io"
  const NipUrlPrefix: string := "https://rejestr.io/nip/"
  const SearchUrlPrefix: string := "https://rejestr.io/szukaj?query="
  const Host: string := "https://rejestr.io"

  // ---------------------------------------------------------------------------
  // `\b<label>[:\s]*([0-9]{10})\b`, for the labels NIP and KRS

  /** `[:\s]` */
  predicate IsSep(c: char) {
    c == ':' || IsSpace(c)
  }

  /** End of the run of separators starting at `i`: where greedy `[:\s]*` stops. */
  function SkipSeps(s: string, i: nat): (j: nat)
    requires i <= |s|
    ensures i <= j <= |s|
    ensures forall k :: i <= k < j ==> IsSep(s[k])
    ensures j < |s| ==> !IsSep(s[j])
    decreases |s| - i
  {
    if i < |s| && IsSep(s[i]) then SkipSeps(s, i + 1) else i
  }

  /**
   * The pattern matches at `i`: a word boundary, the label, the separators,
   * ten digits and a word boundary. Giving back part of the separator run
   * cannot help, since a separator is not a digit, so the greedy run is the
   * only one to try. (The boundary before the label is a non-word character
   * or the start, as the labels begin with a letter.)
   */
  predicate IdMatchAt(s: string, tag: string, i: nat) {
    && OccursAt(s, tag, i)
    && (i == 0 || !IsWordChar(s[i - 1]))
    && var p := SkipSeps(s, i + |tag|);
       && p + 10 <= |s|
       && AllDigits(s[p..p + 10])
       && (p + 10 == |s| || !IsWordChar(s[p + 10]))
  }

  /** `re.search` from `from` on: the leftmost position where the pattern matches. */
  function IdSearch(s: string, tag: string, from: nat): (r: Option<nat>)
    requires from <= |s|
    ensures r.Some? ==> from <= r.value <= |s| && IdMatchAt(s, tag, r.value)
    ensures forall k :: from <= k <= |s| && (r.None? || k < r.value) ==> !IdMatchAt(s, tag, k)
    decreases |s| - from
  {
    if IdMatchAt(s, tag, from) then Some(from)
    else if from == |s| then None
    else IdSearch(s, tag, from + 1)
  }

  /** `m.group(1)` of the leftmost match, if any. */
  function IdNumber(text: string, tag: string): (r: Option<string>)
    ensures r.Some? ==> |r.value| == 10 && AllDigits(r.value)
    ensures r.Some? ==> exists i :: 0 <= i <= |text| && IdMatchAt(text, tag, i)
                          && r.value == text[SkipSeps(text, i + |tag|)..SkipSeps(text, i + |tag|) + 10]
                          && forall k :: 0 <= k < i ==> !IdMatchAt(text, tag, k)
    ensures r.None? ==> forall i :: 0 <= i <= |text| ==> !IdMatchAt(text, tag, i)
  {
    match IdSearch(text, tag, 0)
    case None => None
    case Some(i) =>
      var p := SkipSeps(text, i + |tag|);
      Some(text[p..p + 10])
  }

  // ---------------------------------------------------------------------------
  // `Forma prawna[:\s]*([A-Za-zĄĆĘŁŃÓŚŹŻąćęłńóśźż.\- ]{3,60})`

  const FormLabel: string := "Forma prawna"

  /** `[A-Za-zĄĆĘŁŃÓŚŹŻąćęłńóśźż.\- ]`: only the plain space, not other whitespace. */
  predicate IsFormChar(c: char) {
    IsAsciiLetter(c) || IsPolishLetter(c) || c == '.' || c == '-' || c == ' '
  }

  /** Length of the run of form characters at `i`, at most `cap`: where greedy `{..,cap}` stops. */
  function FormRun(s: string, i: nat, cap: nat): (n: nat)
    requires i <= |s|
    ensures n <= cap && i + n <= |s|
    ensures forall k :: i <= k < i + n ==> IsFormChar(s[k])
    ensures n < cap && i + n < |s| ==> !IsFormChar(s[i + n])
    decreases cap
  {
    if cap == 0 || i == |s| || !IsFormChar(s[i]) then 0 else 1 + FormRun(s, i + 1, cap - 1)
  }

  /** `n` form characters start at `q`: a capture `{3,60}` can take. */
  predicate FormRunAt(s: string, q: nat, n: nat) {
    3 <= n <= 60 && q + n <= |s| && forall k :: q <= k < q + n ==> IsFormChar(s[k])
  }

  /**
   * Backtracking over the separators: the capture is tried after all of them,
   * then after one fewer, down to none; the first place where at least three
   * form characters follow wins (a given-back space is itself a form character).
   */
  function FormBacktrack(s: string, lo: nat, q: nat): (r: Option<nat>)
    requires lo <= q <= |s|
    ensures r.Some? ==> lo <= r.value <= q && FormRun(s, r.value, 60) >= 3
    ensures forall k :: lo <= k <= q && (r.None? || r.value < k) ==> FormRun(s, k, 60) < 3
    decreases q - lo
  {
    if FormRun(s, q, 60) >= 3 then Some(q)
    else if q == lo then None
    else FormBacktrack(s, lo, q - 1)
  }

  /** Where the capture starts when the pattern matches at `i`. */
  function FormMatchAt(s: string, tag: string, i: nat): (q: Option<nat>)
    ensures q.Some? ==>
              && OccursAt(s, tag, i)
              && i + |tag| <= q.value <= |s|
              && (forall k :: i + |tag| <= k < q.value ==> IsSep(s[k]))
              && FormRun(s, q.value, 60) >= 3
  {
    if OccursAt(s, tag, i) then
      var lo := i + |tag|;
      FormBacktrack(s, lo, SkipSeps(s, lo))
    else None
  }

  /** Where the leftmost match of the pattern starts, and where its capture starts and how long it is. */
  datatype FormMatch = FormMatch(start: nat, at: nat, len: nat)

  /**
   * `re.search` from `from` on: the leftmost match, made of the label, then
   * separators only, then a capture of 3 to 60 form characters.
   */
  function FormSearch(s: string, tag: string, from: nat): (m: Option<FormMatch>)
    requires from <= |s|
    ensures m.Some? ==>
              && from <= m.value.start
              && FormMatchAt(s, tag, m.value.start) == Some(m.value.at)
              && OccursAt(s, tag, m.value.start)
              && m.value.start + |tag| <= m.value.at
              && FormRunAt(s, m.value.at, m.value.len)
              && m.value.len == FormRun(s, m.value.at, 60)
              && (forall k :: m.value.start + |tag| <= k < m.value.at ==> IsSep(s[k]))
    ensures forall k :: from <= k <= |s| && (m.None? || k < m.value.start) ==> FormMatchAt(s, tag, k).None?
    decreases |s| - from
  {
    match FormMatchAt(s, tag, from)
    case Some(q) => Some(FormMatch(from, q, FormRun(s, q, 60)))
    case None =>
      if from == |s| then None
      else FormSearch(s, tag, from + 1)
  }

  /** `m_form.group(1).strip()` for the leftmost match, or None when nothing matches. */
  function LegalForm(text: string): (r: Option<string>)
    ensures r.None? <==> forall i :: 0 <= i <= |text| ==> FormMatchAt(text, FormLabel, i).None?
  {
    match FormSearch(text, FormLabel, 0)
    case None => None
    case Some(m) => Some(FormValue(text, m))
  }

  /**
   * `group(1).strip()` of a match: its capture with the whitespace at both
   * ends dropped, which leaves at most as many form characters, trimmed.
   */
  function FormValue(text: string, m: FormMatch): (v: string)
    requires FormRunAt(text, m.at, m.len)
    ensures |v| <= m.len
    ensures forall k :: 0 <= k < |v| ==> IsFormChar(v[k])
    ensures v != [] ==> !IsSpace(v[0]) && !IsSpace(v[|v| - 1])
  {
    var run := text[m.at..m.at + m.len];
    StripFormRun(run);
    Strip(run)
  }

  /**
   * The legal form is the stripped capture of the leftmost match, the
   * capture being the longest run of form characters, 60 at most, where the
   * separators give way.
   */
  lemma LegalFormIsStrippedCapture(text: string, m: FormMatch)
    requires FormSearch(text, FormLabel, 0) == Some(m)
    ensures FormRunAt(text, m.at, m.len) && m.len == FormRun(text, m.at, 60)
    ensures LegalForm(text) == Some(FormValue(text, m))
  {
  }

  /** Stripping a run of form characters leaves a shorter run of form characters. */
  lemma StripFormRun(run: string)
    requires forall k :: 0 <= k < |run| ==> IsFormChar(run[k])
    ensures var r := Strip(run);
            && |r| <= |run|
            && (forall k :: 0 <= k < |r| ==> IsFormChar(r[k]))
            && (r != [] ==> !IsSpace(r[0]) && !IsSpace(r[|r| - 1]))
  {
    StripProps(run);
    var a := LeadingSpaces(run);
    var r := Strip(run);
    assert forall k :: 0 <= k < |r| ==> r[k] == run[a + k];
  }

  // ---------------------------------------------------------------------------
  // Grupa kapitałowa

  /** Captures that mean "no group". */
  const NoGroupTokens: seq<string> := ["brak", "nie dotyczy", "—", "-"]

  /**
   * The group name kept from the capture: stripped, and dropped when it is
   * empty or, lower-cased, one of the "no group" tokens.
   */
  function GroupName(capture: Option<string>, lower: string -> string): (r: Option<string>)
    ensures r.Some? <==> capture.Some? && !IsBlank(capture.value) && lower(Strip(capture.value)) !in NoGroupTokens
    ensures r.Some? ==> r.value == Strip(capture.value) && !IsSpace(r.value[0]) && !IsSpace(r.value[|r.value| - 1])
  {
    match capture
    case None => None
    case Some(c) =>
      var v := Strip(c);
      StripEmptyIffBlank(c);
      StripProps(c);
      if v != "" && lower(v) !in NoGroupTokens then Some(v) else None
  }

  // ---------------------------------------------------------------------------
  // Link scans

  /** Position of the first link that passes `p`, in document order. */
  function FirstWhere(anchors: seq<Anchor>, p: Anchor -> bool): (r: Option<nat>)
    ensures r.Some? ==> r.value < |anchors| && p(anchors[r.value])
                        && forall j :: 0 <= j < r.value ==> !p(anchors[j])
    ensures r.None? ==> forall j :: 0 <= j < |anchors| ==> !p(anchors[j])
  {
    if anchors == [] then None
    else if p(anchors[0]) then Some(0)
    else match FirstWhere(anchors[1..], p)
      case None => None
      case Some(j) => Some(j + 1)
  }

  /** The link to the financial statements: its text names them and its target is the court register. */
  function IsDocsLink(lower: string -> string): Anchor -> bool {
    (a: Anchor) => (Contains(lower(a.text), "sprawozdania") || Contains(lower(a.text), "sprawozdanie"))
         && (Contains(a.href, "krs") || Contains(a.href, "ms.gov") || Contains(a.href, "ekrs"))
  }

  /** A search result that leads to a company page. */
  function IsResultLink(): Anchor -> bool {
    (a: Anchor) => StartsWith(a.href, "/krs/") || StartsWith(a.href, "/nip/") || StartsWith(a.href, "/regon/")
  }

  /** The href of the first link passing `p`, if any. */
  function FirstHref(anchors: seq<Anchor>, p: Anchor -> bool): Option<string> {
    match FirstWhere(anchors, p)
    case None => None
    case Some(i) => Some(anchors[i].href)
  }

  /** The loop with `break` that finds the first link passing `p`. */
  method ScanLinks(anchors: seq<Anchor>, p: Anchor -> bool) returns (href: Option<string>)
    ensures href == FirstHref(anchors, p)
  {
    href := None;
    for i := 0 to |anchors|
      invariant forall j :: 0 <= j < i ==> !p(anchors[j])
    {
      if p(anchors[i]) {
        href := Some(anchors[i].href);
        return;
      }
    }
  }

  // ---------------------------------------------------------------------------
  // _parse_company_page

  /** The record `_parse_company_page` returns for a page. */
  function Record(page: Page, lower: string -> string, groupMatch: string -> Option<string>): CompanyRecord {
    CompanyRecord(
      name := page.heading,
      legalForm := LegalForm(page.text),
      nip := IdNumber(page.text, "NIP"),
      krs := IdNumber(page.text, "KRS"),
      groupName := GroupName(groupMatch(page.text), lower),
      employment := None,
      revenueValue := None,
      revenueYear := None,
      sourceUrl := None,
      rdfDocsUrl := FirstHref(page.anchors, IsDocsLink(lower)))
  }

  /**
   * Every field the page does not yield stays None; what is found has the
   * shape of its pattern: ten digits for NIP and KRS and a group name that is
   * not a "no group" token.
   */
  lemma RecordProps(page: Page, lower: string -> string, groupMatch: string -> Option<string>)
    ensures var r := Record(page, lower, groupMatch);
            && (r.nip.Some? ==> |r.nip.value| == 10 && AllDigits(r.nip.value))
            && (r.krs.Some? ==> |r.krs.value| == 10 && AllDigits(r.krs.value))
            && (r.groupName.Some? ==> r.groupName.value != "" && lower(r.groupName.value) !in NoGroupTokens)
            && r.employment.None? && r.revenueValue.None? && r.revenueYear.None? && r.sourceUrl.None?
  {
    var r := Record(page, lower, groupMatch);
    if r.groupName.Some? {
      assert r.groupName.value == Strip(groupMatch(page.text).value);
    }
  }

  /** The statements link is the href of the first qualifying anchor, and is missing only when none qualifies. */
  lemma RecordDocsLink(page: Page, lower: string -> string, groupMatch: string -> Option<string>)
    ensures var u := Record(page, lower, groupMatch).rdfDocsUrl;
            && (u.Some? ==> exists i :: 0 <= i < |page.anchors| && IsDocsLink(lower)(page.anchors[i])
                                      && u.value == page.anchors[i].href
                                      && forall j :: 0 <= j < i ==> !IsDocsLink(lower)(page.anchors[j]))
            && (u.None? ==> forall a :: a in page.anchors ==> !IsDocsLink(lower)(a))
  {
  }

  /** The legal form a record carries is at most 60 form characters with no space at either end. */
  lemma RecordLegalForm(page: Page, lower: string -> string, groupMatch: string -> Option<string>)
    ensures var f := Record(page, lower, groupMatch).legalForm;
            f.Some? ==> |f.value| <= 60 && (forall k :: 0 <= k < |f.value| ==> IsFormChar(f.value[k]))
                        && (f.value != [] ==> !IsSpace(f.value[0]) && !IsSpace(f.value[|f.value| - 1]))
  {
  }

  /** `_parse_company_page`: the record filled in field by field. */
  method ParseCompanyPage(page: Page, lower: string -> string, groupMatch: string -> Option<string>)
    returns (data: CompanyRecord)
    ensures data == Record(page, lower, groupMatch)
  {
    data := CompanyRecord(None, None, None, None, None, None, None, None, None, None);
    if page.heading.Some? {
      data := data.(name := page.heading);
    }
    var mNip := IdNumber(page.text, "NIP");
    if mNip.Some? {
      data := data.(nip := mNip);
    }
    var mKrs := IdNumber(page.text, "KRS");
    if mKrs.Some? {
      data := data.(krs := mKrs);
    }
    var mForm := LegalForm(page.text);
    if mForm.Some? {
      data := data.(legalForm := mForm);
    }
    var mGroup := groupMatch(page.text);
    if mGroup.Some? {
      var val := Strip(mGroup.value);
      if val != "" && lower(val) !in NoGroupTokens {
        data := data.(groupName := Some(val));
      }
    }
    var rdfLink := ScanLinks(page.anchors, IsDocsLink(lower));
    data := data.(rdfDocsUrl := rdfLink);
  }

  /** The dictionary itself: eleven keys, no "group" among them, and `source_name` always set. */
  function AsDict(r: CompanyRecord): (d: Dict)
    ensures d.Keys == {"name", "legal_form", "nip", "krs", "group_name", "employment", "revenue_value",
                       "revenue_year", "source_name", "source_url", "rdf_docs_url"}
    ensures "group" !in d
    ensures d["source_name"] == Str(SourceName)
    ensures d["rdf_docs_url"] == (if r.rdfDocsUrl.Some? then Str(r.rdfDocsUrl.value) else Null)
  {
    map["name" := OptStr(r.name), "legal_form" := OptStr(r.legalForm), "nip" := OptStr(r.nip),
        "krs" := OptStr(r.krs), "group_name" := OptStr(r.groupName), "employment" := OptStr(r.employment),
        "revenue_value" := OptStr(r.revenueValue), "revenue_year" := OptStr(r.revenueYear),
        "source_name" := Str(SourceName), "source_url" := OptStr(r.sourceUrl),
        "rdf_docs_url" := OptStr(r.rdfDocsUrl)]
  }

  function OptStr(o: Option<string>): Value {
    match o
    case None => Null
    case Some(s) => Str(s)
  }

  // ---------------------------------------------------------------------------
  // Lookups

  /** `x or ""` for an optional string. */
  function OrEmpty(x: Option<string>): string {
    match x
    case None => ""
    case Some(s) => s
  }

  /** The record of a fetched company page, or None, or the exception the GET raised. */
  function PageOutcome(f: Fetched<Page>, url: string, lower: string -> string, groupMatch: string -> Option<string>)
    : Outcome<Option<CompanyRecord>>
  {
    match f
    case NetworkError => Raised
    case Response(status, page) =>
      if status != 200 then Ok(None)
      else Ok(Some(Record(page, lower, groupMatch).(sourceUrl := Some(url))))
  }

  /**
   * `lookup_by_nip`: nothing is requested unless exactly ten digits remain
   * once every non-digit is removed; then the one request is the NIP page of
   * those digits, and a record found there names that page as its source.
   */
  method LookupByNip(nip: Option<string>, fetch: string -> Fetched<Page>, lower: string -> string,
                     groupMatch: string -> Option<string>)
    returns (res: Outcome<Option<CompanyRecord>>, requests: seq<string>)
    ensures var digits := Digits(OrEmpty(nip));
            && (|digits| != 10 ==> res == Ok(None) && requests == [])
            && (|digits| == 10 ==>
                  && requests == [NipUrlPrefix + digits]
                  && res == PageOutcome(fetch(NipUrlPrefix + digits), NipUrlPrefix + digits, lower, groupMatch))
    ensures res.Ok? && res.value.Some? ==>
              exists d :: |d| == 10 && AllDecimal(d) && res.value.value.sourceUrl == Some(NipUrlPrefix + d)
  {
    var digits := Digits(OrEmpty(nip));
    if digits == "" || |digits| != 10 {
      return Ok(None), [];
    }
    var url := NipUrlPrefix + digits;
    requests := [url];
    match fetch(url)
    case NetworkError =>
      res := Raised;
    case Response(status, page) =>
      if status != 200 {
        return Ok(None), requests;
      }
      var out := ParseCompanyPage(page, lower, groupMatch);
      res := Ok(Some(out.(sourceUrl := Some(url))));
  }

  /**
   * `lookup_by_name`: nothing is requested for a blank name; otherwise the
   * search page is requested, and the company page of the first result link,
   * in document order, is requested only if there is one.
   */
  method LookupByName(name: Option<string>, fetch: string -> Fetched<Page>, quotePlus: string -> string,
                      urljoin: (string, string) -> string, lower: string -> string,
                      groupMatch: string -> Option<string>)
    returns (res: Outcome<Option<CompanyRecord>>, requests: seq<string>)
    ensures var q := Strip(OrEmpty(name));
            var searchUrl := SearchUrlPrefix + quotePlus(q);
            && (q == "" ==> res == Ok(None) && requests == [])
            && (q != "" ==> |requests| >= 1 && requests[0] == searchUrl)
            && (q != "" && fetch(searchUrl).NetworkError? ==> res == Raised && requests == [searchUrl])
            && (q != "" && fetch(searchUrl).Response? && fetch(searchUrl).status != 200 ==>
                  res == Ok(None) && requests == [searchUrl])
            && (q != "" && fetch(searchUrl).Response? && fetch(searchUrl).status == 200 ==>
                  var first := FirstHref(fetch(searchUrl).body.anchors, IsResultLink());
                  if first.None? || urljoin(Host, first.value) == "" then
                    res == Ok(None) && requests == [searchUrl]
                  else
                    var link := urljoin(Host, first.value);
                    requests == [searchUrl, link] && res == PageOutcome(fetch(link), link, lower, groupMatch))
  {
    var q := Strip(OrEmpty(name));
    if q == "" {
      return Ok(None), [];
    }
    var searchUrl := SearchUrlPrefix + quotePlus(q);
    requests := [searchUrl];
    var r := fetch(searchUrl);
    if r.NetworkError? {
      return Raised, requests;
    }
    if r.status != 200 {
      return Ok(None), requests;
    }
    var href := ScanLinks(r.body.anchors, IsResultLink());
    var firstLink := "";
    if href.Some? {
      firstLink := urljoin(Host, href.value);
    }
    if firstLink == "" {
      return Ok(None), requests;
    }
    requests := requests + [firstLink];
    var r2 := fetch(firstLink);
    if r2.NetworkError? {
      return Raised, requests;
    }
    if r2.status != 200 {
      return Ok(None), requests;
    }
    var out := ParseCompanyPage(r2.body, lower, groupMatch);
    res := Ok(Some(out.(sourceUrl := Some(firstLink))));
  }
}
