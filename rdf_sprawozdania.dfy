/**
 * adapters/rdf_sprawozdania.py: from the page listing a company's filed
 * documents, pick the newest financial statement in PDF, download it and
 * extract its figures.
 *
 * The two GETs are the abstract `fetchPage` (the listing, parsed) and
 * `fetchPdf` (the document's bytes); `urljoin` stands for
 * `requests.compat.urljoin` and `lower` for `str.lower`.
 */
module RdfSprawozdania {
  import opened Common
  import opened Text
  import R = Rejestrio
  import F = FinancialsPdf

  // ---------------------------------------------------------------------------
  // Year hint: `re.search(r"(20[0-9]{2}|19[0-9]{2})", label + " " + href)`

  /** A year token `20dd` or `19dd` starts at `i`; no word boundary is needed. */
  predicate YearAt(s: string, i: nat) {
    && i + 4 <= |s|
    && ((s[i] == '2' && s[i + 1] == '0') || (s[i] == '1' && s[i + 1] == '9'))
    && IsDigit(s[i + 2]) && IsDigit(s[i + 3])
  }

  function DigitValue(c: char): int {
    (c as int) - ('0' as int)
  }

  /** `int()` of the four characters at `i`. */
  function YearValue(s: string, i: nat): (y: int)
    requires YearAt(s, i)
    ensures 1900 <= y <= 2099
  {
    DigitValue(s[i]) * 1000 + DigitValue(s[i + 1]) * 100 + DigitValue(s[i + 2]) * 10 + DigitValue(s[i + 3])
  }

  /** The leftmost year token at or after `from`. */
  function YearSearch(s: string, from: nat): (r: Option<nat>)
    requires from <= |s|
    ensures r.Some? ==> from <= r.value && YearAt(s, r.value)
    ensures forall k :: from <= k <= |s| && (r.None? || k < r.value) ==> !YearAt(s, k)
    decreases |s| - from
  {
    if YearAt(s, from) then Some(from)
    else if from == |s| then None
    else YearSearch(s, from + 1)
  }

  /**
   * `year or 0`: the value of the leftmost year token, or 0 when there is
   * none, so an undated document sorts after every dated one.
   */
  function YearHint(s: string): (y: int)
    ensures y == 0 <==> forall i :: 0 <= i <= |s| ==> !YearAt(s, i)
    ensures y != 0 ==> 1900 <= y <= 2099
                       && exists i :: 0 <= i <= |s| && YearAt(s, i) && y == YearValue(s, i)
                                      && forall k :: 0 <= k < i ==> !YearAt(s, k)
  {
    match YearSearch(s, 0)
    case None => 0
    case Some(i) => YearValue(s, i)
  }

  // ---------------------------------------------------------------------------
  // Candidates

  /** A linked PDF: its year hint and its absolute URL. */
  datatype Candidate = Candidate(year: int, url: string)

  /** A link whose target, lower-cased, ends in ".pdf". */
  predicate IsPdfLink(a: R.Anchor, lower: string -> string) {
    EndsWith(lower(a.href), ".pdf")
  }

  /** The candidate a PDF link contributes. */
  function CandidateOf(a: R.Anchor, base: string, urljoin: (string, string) -> string): Candidate {
    Candidate(YearHint(a.text + " " + a.href), urljoin(base, a.href))
  }

  /** `candidates`: one entry per PDF link, in document order. */
  function Candidates(anchors: seq<R.Anchor>, base: string, lower: string -> string,
                      urljoin: (string, string) -> string): (c: seq<Candidate>)
    ensures |c| <= |anchors|
    ensures c == [] <==> forall a :: a in anchors ==> !IsPdfLink(a, lower)
    ensures forall i :: 0 <= i < |anchors| && IsPdfLink(anchors[i], lower) ==> CandidateOf(anchors[i], base, urljoin) in c
  {
    if anchors == [] then []
    else
      var init := anchors[..|anchors| - 1];
      var a := anchors[|anchors| - 1];
      assert forall b :: b in anchors ==> b in init || b == a;
      assert forall i :: 0 <= i < |init| ==> anchors[i] == init[i];
      Candidates(init, base, lower, urljoin) + (if IsPdfLink(a, lower) then [CandidateOf(a, base, urljoin)] else [])
  }

  /** Every candidate comes from a PDF link, with its own year hint. */
  lemma {:induction false} CandidatesFromPdfLinks(anchors: seq<R.Anchor>, base: string, lower: string -> string,
                                                  urljoin: (string, string) -> string)
    ensures forall c :: c in Candidates(anchors, base, lower, urljoin) ==>
              exists a :: a in anchors && IsPdfLink(a, lower) && c == CandidateOf(a, base, urljoin)
  {
    if anchors != [] {
      var init := anchors[..|anchors| - 1];
      CandidatesFromPdfLinks(init, base, lower, urljoin);
      assert forall b :: b in init ==> b in anchors;
    }
  }

  /**
   * The candidates of consecutive runs of links are those of each run, in
   * order: one per PDF link, in document order.
   */
  lemma {:induction false} CandidatesConcat(a: seq<R.Anchor>, b: seq<R.Anchor>, base: string,
                                            lower: string -> string, urljoin: (string, string) -> string)
    ensures Candidates(a + b, base, lower, urljoin) == Candidates(a, base, lower, urljoin) + Candidates(b, base, lower, urljoin)
    decreases |b|
  {
    if b == [] {
      assert a + b == a;
    } else {
      var n := |b| - 1;
      assert (a + b)[..|a + b| - 1] == a + b[..n];
      assert (a + b)[|a + b| - 1] == b[n];
      CandidatesConcat(a, b[..n], base, lower, urljoin);
    }
  }

  /** A single link contributes its candidate exactly when it is a PDF link. */
  lemma CandidatesOne(x: R.Anchor, base: string, lower: string -> string, urljoin: (string, string) -> string)
    ensures Candidates([x], base, lower, urljoin) == if IsPdfLink(x, lower) then [CandidateOf(x, base, urljoin)] else []
  {
    assert [x][..0] == [];
  }

  /** The loop that appends one candidate per PDF link. */
  method CollectCandidates(anchors: seq<R.Anchor>, base: string, lower: string -> string,
                           urljoin: (string, string) -> string)
    returns (candidates: seq<Candidate>)
    ensures candidates == Candidates(anchors, base, lower, urljoin)
  {
    candidates := [];
    for i := 0 to |anchors|
      invariant candidates == Candidates(anchors[..i], base, lower, urljoin)
    {
      var a := anchors[i];
      assert anchors[..i + 1][..i] == anchors[..i];
      if EndsWith(lower(a.href), ".pdf") {
        var year := YearHint(a.text + " " + a.href);
        candidates := candidates + [Candidate(year, urljoin(base, a.href))];
      }
    }
    assert anchors[..|anchors|] == anchors;
  }

  // ---------------------------------------------------------------------------
  // `candidates.sort(key=lambda x: x[0], reverse=True)`: a stable sort, newest first

  /** Insert `x` after every entry at least as new: the stable place for a later element. */
  function InsertDesc(t: seq<Candidate>, x: Candidate): (r: seq<Candidate>)
    ensures |r| == |t| + 1
    ensures multiset(r) == multiset(t) + multiset{x}
    ensures r[0] == x || (t != [] && r[0] == t[0])
  {
    if t == [] then [x]
    else if t[0].year < x.year then [x] + t
    else
      assert t == [t[0]] + t[1..];
      [t[0]] + InsertDesc(t[1..], x)
  }

  /** The list after the sort. */
  function SortDesc(s: seq<Candidate>): (r: seq<Candidate>)
    ensures |r| == |s|
    ensures multiset(r) == multiset(s)
  {
    if s == [] then []
    else
      assert s == s[..|s| - 1] + [s[|s| - 1]];
      InsertDesc(SortDesc(s[..|s| - 1]), s[|s| - 1])
  }

  predicate SortedDesc(t: seq<Candidate>) {
    forall i, j :: 0 <= i < j < |t| ==> t[i].year >= t[j].year
  }

  lemma {:induction false} InsertDescSorted(t: seq<Candidate>, x: Candidate)
    requires SortedDesc(t)
    ensures SortedDesc(InsertDesc(t, x))
  {
    if t != [] && t[0].year >= x.year {
      var rest := InsertDesc(t[1..], x);
      InsertDescSorted(t[1..], x);
      assert rest[0].year <= t[0].year;
      assert forall k :: 0 <= k < |rest| ==> rest[k].year <= rest[0].year;
      assert InsertDesc(t, x) == [t[0]] + rest;
    }
  }

  /** The sorted list runs from the newest year to the oldest. */
  lemma {:induction false} SortDescSorted(s: seq<Candidate>)
    ensures SortedDesc(SortDesc(s))
  {
    if s != [] {
      SortDescSorted(s[..|s| - 1]);
      InsertDescSorted(SortDesc(s[..|s| - 1]), s[|s| - 1]);
    }
  }

  /** Position of the first candidate, in list order, with the greatest year. */
  function FirstNewest(s: seq<Candidate>): (i: nat)
    requires s != []
    ensures i < |s|
    ensures forall k :: 0 <= k < |s| ==> s[k].year <= s[i].year
    ensures forall k :: 0 <= k < i ==> s[k].year < s[i].year
  {
    if |s| == 1 then 0
    else
      var init := s[..|s| - 1];
      var j := FirstNewest(init);
      assert forall k :: 0 <= k < |init| ==> s[k] == init[k];
      if s[|s| - 1].year > s[j].year then |s| - 1 else j
  }

  /**
   * The head of the sorted list is the first candidate with the greatest
   * year: among equal years the earliest in document order wins.
   */
  lemma {:induction false} SortDescHead(s: seq<Candidate>)
    requires s != []
    ensures SortDesc(s)[0] == s[FirstNewest(s)]
  {
    if |s| > 1 {
      var init := s[..|s| - 1];
      var x := s[|s| - 1];
      SortDescHead(init);
      var t := SortDesc(init);
      assert forall k :: 0 <= k < |init| ==> s[k] == init[k];
      assert t[0] == init[FirstNewest(init)];
    }
  }

  // ---------------------------------------------------------------------------
  // latest_financials_from_docs_url

  /**
   * `latest_financials_from_docs_url`. Nothing is requested for an empty URL.
   * A failed or unsuccessful request for the listing, or a listing without
   * PDF links, gives None. Otherwise the PDF of the first candidate with the
   * greatest year is requested; an exception there or in reading the PDF
   * propagates, an unsuccessful or empty download gives None, and otherwise
   * the extracted fields come back with `pdf_url` added.
   */
  method LatestFinancialsFromDocsUrl(url: string, fetchPage: string -> Fetched<R.Page>,
                                     fetchPdf: string -> Fetched<seq<Byte>>, lower: string -> string,
                                     urljoin: (string, string) -> string,
                                     open: seq<Byte> -> Outcome<seq<F.PageText>>, pats: F.Patterns)
    returns (res: Outcome<Option<Dict>>, requests: seq<string>)
    ensures url == "" ==> res == Ok(None) && requests == []
    ensures url != "" && (fetchPage(url).NetworkError? || fetchPage(url).status != 200) ==>
              res == Ok(None) && requests == [url]
    ensures url != "" && fetchPage(url).Response? && fetchPage(url).status == 200 ==>
              var cands := Candidates(fetchPage(url).body.anchors, url, lower, urljoin);
              if cands == [] then
                res == Ok(None) && requests == [url]
              else
                var pdfUrl := cands[FirstNewest(cands)].url;
                var doc := fetchPdf(pdfUrl);
                && requests == [url, pdfUrl]
                && (doc.NetworkError? ==> res.Raised?)
                && (doc.Response? && (doc.status != 200 || doc.body == []) ==> res == Ok(None))
                && (doc.Response? && doc.status == 200 && doc.body != [] ==>
                      match open(doc.body)
                      case Raised => res.Raised?
                      case Ok(pages) =>
                        res == Ok(Some(F.ExtractedFields(pats, F.Joined(F.FirstTen(pages)))["pdf_url" := Str(pdfUrl)])))
  {
    if url == "" {
      return Ok(None), [];
    }
    requests := [url];
    var r := fetchPage(url);
    if r.NetworkError? || r.status != 200 {
      return Ok(None), requests;
    }
    var candidates := CollectCandidates(r.body.anchors, url, lower, urljoin);
    if candidates == [] {
      return Ok(None), requests;
    }
    var sorted := SortDesc(candidates);
    SortDescHead(candidates);
    var pdfUrl := sorted[0].url;
    requests := requests + [pdfUrl];
    var rr := fetchPdf(pdfUrl);
    if rr.NetworkError? {
      return Raised, requests;
    }
    if rr.status != 200 || rr.body == [] {
      return Ok(None), requests;
    }
    var fin := F.ExtractRevenueAndEmployment(rr.body, open, pats);
    if fin.Raised? {
      return Raised, requests;
    }
    res := Ok(Some(fin.value["pdf_url" := Str(pdfUrl)]));
  }
}
