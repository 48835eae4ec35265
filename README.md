# Company Analyzer, modelled in Dafny

Company Analyzer turns a list of Polish companies into a report. Each input
row gives a company name and, optionally, a NIP (the Polish tax ID). The
pipeline has these parts:

- `prep_input.py` cleans the input table. It finds the name and NIP columns
  from loose header spellings and keeps the NIP only when it has exactly ten
  digits. It drops blank and form-placeholder rows and removes duplicates.
- `analyzer.py` resolves each company (`resolve_company`). It asks the KRS
  adapter and then the rejestr.io adapter, first by NIP and then by name. It
  merges the record found into a fixed result dictionary. When the record
  links to a page of filed documents, the newest financial statement
  overlays revenue, revenue year and employment. Finally it writes one
  nine-column row per company, with "brak danych" for anything missing.
- `adapters/rejestrio.py` fetches a rejestr.io company page, by NIP or
  through the site's search, and parses it. It reads the heading as the
  name, the NIP and KRS numbers, the legal form, the capital group and the
  link to the filed statements.
- `adapters/rdf_sprawozdania.py` lists the PDF links on the documents page.
  It dates each from the first year in its label or URL, picks the newest
  and downloads it.
- `adapters/financials_pdf.py` joins the text of the PDF's first ten pages.
  It takes revenue, employment and year from the first matching pattern of
  each list, and cleans the revenue figure with `_first_number`.
- `utils/match.py` provides `normalize` and `name_score`.

## How the model is organised

There is one module per source file. Two shared modules sit beside them:

- `Common` holds `Option`, `Outcome` (a value, or the exception that
  propagated) and `Fetched` (an HTTP response or a network error). It also
  holds the dictionary value type: None, strings, booleans and integers.
- `Text` holds Python's `str.strip` with the `isspace` set, `in`,
  `startswith`/`endswith`, and `re.sub(r"\D+", "", x)`: the filter that keeps
  the Unicode decimal digits (category Nd), as `\d` does for a str pattern.

Several dependencies enter as function parameters, so every property holds
for whatever they do:

- the network (`fetch`);
- HTML parsing (`Page`, a text plus the anchors);
- `str.lower`, `urljoin` and `quote_plus`;
- PDF reading;
- the regular expressions this model does not spell out;
- the KRS adapter.

Each adapter method returns the URLs it requested. `resolve_company` returns
the adapter and resolver calls it made. This lets the contracts state which
requests happen and in what order.

## Model

| member | source | states |
|---|---|---|
| Text.StripProps | analyzer.py:27 | `strip` removes a whitespace prefix and suffix and keeps the contiguous middle, which neither starts nor ends with whitespace |
| Text.StripEmptyIffBlank | analyzer.py:27 | `x.strip()` is empty exactly when every character of `x` is whitespace |
| Text.StripOfTrimmed | utils/match.py:5 | a string with no whitespace at either end is left unchanged by `strip` |
| Text.StripIdempotent | prep_input.py:35 | stripping twice is stripping once |
| Text.Digits | prep_input.py:44 | `re.sub(r"\D+", "", x)` yields only Unicode decimal digits (ASCII, Arabic-Indic, Devanagari, fullwidth and the other Nd ranges) and is no longer than `x` |
| Text.DigitsConcat | prep_input.py:44 | deleting non-digits distributes over concatenation |
| Text.DigitsOfDigits | prep_input.py:44 | a string of decimal digits, in any script, is left unchanged |
| Text.DigitsEmpty | prep_input.py:44 | the result is empty exactly when the input has no decimal digit |
| Text.DigitsIdempotent | prep_input.py:44 | deleting non-digits twice is doing it once |
| Match.NormalizeProps | utils/match.py:4-5 | `normalize` gives "" for None and "", has no whitespace at either end, and is "" exactly for a blank string |
| Match.NormalizeIdempotent | utils/match.py:4-5 | normalising a normalised name changes nothing |
| Match.NormalizeRemovesOnlySpace | utils/match.py:4-5 | the result is a contiguous slice of the input, and only whitespace lies outside it |
| Match.NameScore | utils/match.py:7-10 | the score is 0 when either name is None or empty, and otherwise the `WRatio` similarity |
| PrepInput.NormNip | prep_input.py:43-45 | the result is "" or ten decimal digits; it is the input's decimal digits, in any script, when there are exactly ten of them, else "" |
| PrepInput.NormNipKeepsFullwidthDigits | prep_input.py:43-45 | ten fullwidth digits pass through unchanged, since `\d` is not limited to ASCII |
| PrepInput.NormNipIdempotent | prep_input.py:43-45 | a normalised NIP normalises to itself |
| PrepInput.HeaderIndexProps | prep_input.py:13 | the header dictionary has one entry per distinct normalised key, covers every header, and maps each key to the last header with that key |
| PrepInput.HeaderIndexLookup | prep_input.py:13 | a key is in the dictionary exactly when some header normalises to it, and it maps to the last such header |
| PrepInput.FirstExact | prep_input.py:16-19 | the first fallback, in order, whose normalised form is a key, with no earlier fallback being one; None when no fallback is a key |
| PrepInput.FirstKeyMatch | prep_input.py:22-24 | the first dictionary entry, in insertion order, whose key contains a pattern, with none before it; None when none does |
| PrepInput.Pick | prep_input.py:15-25 | the `pick` loops return exactly `Picked`: the exact-match stage first, then the substring stage |
| PrepInput.PickMatchesReference | prep_input.py:13-25 | `pick` over the dictionary equals a statement over the header list: the earliest fallback that some header equals wins over a substring match; otherwise the first header in column order whose key contains a pattern; among headers sharing a key, the last one |
| PrepInput.PickedIsHeader | prep_input.py:15-25 | whatever `pick` returns is one of the table's headers |
| PrepInput.DropJunk | prep_input.py:52-53 | the filter keeps exactly the rows whose name is neither blank nor contains "wypełnienie formularza", case-insensitively |
| PrepInput.DropJunkConcat | prep_input.py:52-53 | filtering distributes over concatenation, so the kept rows keep their relative order |
| PrepInput.KeepFirstSnoc | prep_input.py:56 | de-duplication appends a row exactly when no earlier row equals it, so the first occurrences survive in input order |
| PrepInput.KeepFirstNoDuplicates | prep_input.py:56 | a table without duplicates is unchanged |
| PrepInput.KeepFirstIdempotent | prep_input.py:56 | de-duplicating twice is de-duplicating once |
| PrepInput.Columnize | prep_input.py:35-47 | there is one row per input row, with the stripped name cell and the normalised NIP cell ("" when there is no NIP column) |
| PrepInput.ColumnizeRows | prep_input.py:35-47 | every row of the frame has a trimmed name and a NIP that is "" or ten decimal digits |
| PrepInput.FilteredRows | prep_input.py:52-56 | the surviving rows are rows of the frame, none of them junk and none repeated |
| PrepInput.PrepareProps | prep_input.py:27-56 | a prepared table has no (name, NIP) pair twice; every name is trimmed, non-blank and not a placeholder; every NIP is "" or ten decimal digits |
| PrepInput.PrepareInput | prep_input.py:27-56 | the script stops exactly when `pick` finds no name column; otherwise it produces the rows `Prepare` describes |
| Rejestrio.IdNumber | adapters/rejestrio.py:40-46 | the first `\bNIP[:\s]*([0-9]{10})\b` (or KRS) match gives ten digits; None exactly when no position matches |
| Rejestrio.LegalForm | adapters/rejestrio.py:49-51 | None exactly when no position matches the "Forma prawna" pattern |
| Rejestrio.FormValue | adapters/rejestrio.py:51 | `group(1).strip()` of a match is at most as long as the capture, made of form characters, with no space at either end |
| Rejestrio.LegalFormIsStrippedCapture | adapters/rejestrio.py:49-51 | when the leftmost match exists, the legal form is `FormValue` of it: the strip of a capture that is the longest run of form characters (60 at most) where the separators give way |
| Rejestrio.RecordLegalForm | adapters/rejestrio.py:49-51 | a parsed legal form has at most 60 form characters and no space at either end |
| Rejestrio.StripFormRun | adapters/rejestrio.py:51 | stripping a captured legal form leaves a shorter run of form characters, trimmed at both ends |
| Rejestrio.GroupName | adapters/rejestrio.py:54-58 | a group name is recorded exactly when the capture is non-blank and its lower-cased trimmed form is not "brak", "nie dotyczy", "—" or "-"; the recorded value is the trimmed capture |
| Rejestrio.ScanLinks | adapters/rejestrio.py:63-68 | the anchor loop with `break` returns the href of the first qualifying anchor in document order |
| Rejestrio.RecordProps | adapters/rejestrio.py:15-71 | a parsed record has ten-digit NIP and KRS and a group name that is not a "no group" token; the financial fields and the source URL stay None |
| Rejestrio.RecordDocsLink | adapters/rejestrio.py:62-69 | the statements link is the href of the first anchor, in document order, whose label contains "sprawozdania"/"sprawozdanie" and whose href contains "krs", "ms.gov" or "ekrs"; None exactly when no anchor qualifies |
| Rejestrio.ParseCompanyPage | adapters/rejestrio.py:15-71 | the page is parsed field by field into exactly the record `RecordProps` describes |
| Rejestrio.AsDict | adapters/rejestrio.py:17-29 | the record has exactly the eleven keys of the parser's dictionary, with no `group` key, and `source_name` is always "rejestr.io" |
| Rejestrio.LookupByNip | adapters/rejestrio.py:73-84 | nothing is requested unless ten decimal digits remain after deleting the rest; then only `https://rejestr.io/nip/<digits>` is requested; a non-200 reply gives None, a network error propagates, and a found record names that page as its source |
| Rejestrio.LookupByName | adapters/rejestrio.py:86-113 | nothing is requested for a blank name; otherwise the search page is requested; the company page of the first `/krs/`, `/nip/` or `/regon/` link is requested only if such a link exists; non-200 replies give None and network errors propagate |
| FinancialsPdf.NbspToSpace | adapters/financials_pdf.py:29 | each no-break space becomes a space and nothing else changes |
| FinancialsPdf.NumberMatchShape | adapters/financials_pdf.py:29 | the text found is a contiguous piece of the input that starts and ends with a digit and holds only digits, dots and commas |
| FinancialsPdf.GreedyIsLongest | adapters/financials_pdf.py:29 | from a digit, the greedy stages end a match of `[0-9]+(?:\.[0-9]{3})*(?:,[0-9]+)?` that no other match from there outreaches |
| FinancialsPdf.NumberMatchLeftmostLongest | adapters/financials_pdf.py:29 | the search finds nothing exactly when there is no ASCII digit; no match of the first alternative starts before the first digit; the text found starts at the first digit and is the longest match of the first alternative there, so the second alternative is never taken |
| FinancialsPdf.FirstNumberAsWritten | adapters/financials_pdf.py:23-30 | None for None or ""; a non-empty input with no digit comes back unchanged; otherwise the number-pattern match in the input with no-break spaces turned into spaces |
| FinancialsPdf.FirstNumberAsWrittenCutsAtSpace | adapters/financials_pdf.py:23-30 | as written, "1 234 567" gives "1" |
| FinancialsPdf.FirstNumber | adapters/financials_pdf.py:24-29 | the corrected definition: None for None or ""; a non-empty input with no digit comes back unchanged; otherwise the number-pattern match in the compacted string that lines 26-27 prepare |
| FinancialsPdf.CompactKeeps | adapters/financials_pdf.py:26-27 | compacting only drops spaces and no-break spaces and turns commas into dots: every other character survives, and nothing new appears besides dots |
| FinancialsPdf.CompactDigits | adapters/financials_pdf.py:26-27 | compacting keeps every digit, in order |
| FinancialsPdf.FirstNumberJoinsSpacedThousands | adapters/financials_pdf.py:24-29 | searching the compacted text turns a number written with spaced thousands into all of its digits |
| FinancialsPdf.FirstNumberDropsCommaDecimals | adapters/financials_pdf.py:27-29 | because line 27 turns the decimal comma into a dot, "1 234,56" gives "1234": the dot is not followed by three digits, so the decimals are dropped |
| FinancialsPdf.JoinedConcat | adapters/financials_pdf.py:35-40 | the joined text of two page runs is the concatenation of their joined texts |
| FinancialsPdf.FailedPageSkipped | adapters/financials_pdf.py:36-40 | a page whose text extraction raises contributes nothing |
| FinancialsPdf.JoinedStartsWithNewline | adapters/financials_pdf.py:38 | the joined text is empty or starts with a newline |
| FinancialsPdf.FirstTen | adapters/financials_pdf.py:35 | `pages[:10]` is a prefix of the pages, of length 10, or all of them when there are fewer |
| FinancialsPdf.LaterPagesIgnored | adapters/financials_pdf.py:35 | pages after the tenth never affect the text |
| FinancialsPdf.JoinPages | adapters/financials_pdf.py:33-40 | the page loop builds exactly the joined text of the first ten pages |
| FinancialsPdf.Cascade | adapters/financials_pdf.py:44-63 | the value found is some pattern's capture; None exactly when no pattern matches |
| FinancialsPdf.Consulted | adapters/financials_pdf.py:44-63 | the patterns tried are a prefix; all but the last failed, and the cascade stops at the first success |
| FinancialsPdf.RunCascade | adapters/financials_pdf.py:44-63 | the `for`/`break` loop returns the cascade's value after trying exactly the patterns it consulted |
| FinancialsPdf.CascadeCapturesDigits | adapters/financials_pdf.py:44-63 | the cascade returns some pattern's capture, so a bound every pattern's capture meets holds for the value found |
| FinancialsPdf.Fields | adapters/financials_pdf.py:65-72 | a key is present exactly when its value is a non-empty string, and only the three figure keys occur |
| FinancialsPdf.FieldsIndependent | adapters/financials_pdf.py:44-63 | each figure depends only on its own pattern list |
| FinancialsPdf.ExtractedShapes | adapters/financials_pdf.py:12-21 | given that each `(\d{1,6})` capture is 1 to 6 Unicode decimal digits and each `([0-9]{4})` capture 4 ASCII digits, the output's employment and year have those shapes |
| FinancialsPdf.ExtractRevenueAndEmployment | adapters/financials_pdf.py:32-72 | an exception from opening the PDF propagates; otherwise the figures found in the first ten pages' text |
| RdfSprawozdania.YearValue | adapters/rdf_sprawozdania.py:29 | a year token reads as a number from 1900 to 2099 |
| RdfSprawozdania.YearSearch | adapters/rdf_sprawozdania.py:28 | the leftmost `20dd`/`19dd` token at or after a position |
| RdfSprawozdania.YearHint | adapters/rdf_sprawozdania.py:28-31 | 0 exactly when label-space-href holds no year token; otherwise the value of the leftmost token, from 1900 to 2099 |
| RdfSprawozdania.Candidates | adapters/rdf_sprawozdania.py:23-31 | at most one candidate per anchor; none exactly when no href ends in ".pdf" after lower-casing; every PDF link's candidate is among them |
| RdfSprawozdania.CandidatesConcat | adapters/rdf_sprawozdania.py:23-31 | the candidates of two runs of links are those of the first run followed by those of the second, so they are in document order |
| RdfSprawozdania.CandidatesOne | adapters/rdf_sprawozdania.py:27-31 | one link yields its candidate (year hint, joined URL) exactly when it is a PDF link, and nothing otherwise |
| RdfSprawozdania.CandidatesFromPdfLinks | adapters/rdf_sprawozdania.py:24-31 | every candidate comes from a PDF link, with that link's year hint and joined URL |
| RdfSprawozdania.CollectCandidates | adapters/rdf_sprawozdania.py:23-31 | the anchor loop builds exactly `Candidates` |
| RdfSprawozdania.InsertDesc | adapters/rdf_sprawozdania.py:36 | insertion adds exactly the new element and keeps everything else |
| RdfSprawozdania.SortDesc | adapters/rdf_sprawozdania.py:36 | the sort is a permutation of the candidates |
| RdfSprawozdania.SortDescSorted | adapters/rdf_sprawozdania.py:36 | the sorted list runs from the newest year to the oldest |
| RdfSprawozdania.FirstNewest | adapters/rdf_sprawozdania.py:35-37 | the first candidate in document order whose year no other candidate exceeds |
| RdfSprawozdania.SortDescHead | adapters/rdf_sprawozdania.py:36-37 | being stable, the sort puts first the earliest candidate with the greatest year |
| RdfSprawozdania.LatestFinancialsFromDocsUrl | adapters/rdf_sprawozdania.py:10-49 | an empty URL requests nothing; a failed or non-200 listing, or one without PDF links, gives None; otherwise exactly the newest candidate's PDF is requested; an exception there or in opening the PDF propagates; a non-200 or empty download gives None; otherwise the extracted figures plus `pdf_url` |
| Analyzer.Safe | analyzer.py:26-29 | None and whitespace-only strings become the fallback; any other value comes back untrimmed |
| Analyzer.NipKey | analyzer.py:37 | a string NIP is stripped; anything else becomes None |
| Analyzer.InitialRecord | analyzer.py:33-46 | the starting result has exactly the twelve keys |
| Analyzer.LookupData | analyzer.py:48-52 | the two `or` stages give the data and calls of `Lookup` |
| Analyzer.ResolveCompany | analyzer.py:31-71 | the in-place updates give exactly `Resolve` of the normalised name and the NIP key, with the same calls |
| Analyzer.NipStageCalls | analyzer.py:49-50 | the NIP stage asks krs only for a non-empty key, and rejestrio only after krs answered with nothing; the stage is falsy exactly when both answered with nothing |
| Analyzer.NameStageCalls | analyzer.py:51-52 | the name stage asks krs, then rejestrio only when krs answered with nothing |
| Analyzer.AdapterCascade | analyzer.py:48-52 | calls come in the order krs-by-NIP, rejestrio-by-NIP, krs-by-name, rejestrio-by-name, and each is made exactly when every earlier one answered with nothing |
| Analyzer.ResolverCall | analyzer.py:54-59 | the statement resolver is called once, after the adapters and with the record's `rdf_docs_url`, exactly when a record with a truthy `rdf_docs_url` was found |
| Analyzer.NoDataKeepsInitial | analyzer.py:33-54 | without a record the result is the initial one: the normalised name, the NIP key, an empty source string, and None elsewhere |
| Analyzer.OverlayFields | analyzer.py:60-63 | the overlay sets each of the three figures to the statement's value when truthy, else leaves it, and changes nothing else |
| Analyzer.WithSourcesFields | analyzer.py:65-69 | only `sources_joined` changes, and only when it was falsy |
| Analyzer.FinishFields | analyzer.py:60-69 | overlay and source string together touch only the three figures and `sources_joined` |
| Analyzer.MergedRecord | analyzer.py:54-69 | the result has the initial keys plus the record's keys; the record overwrites the initial values; the statement's truthy figures overwrite the three figures; `sources_joined` is composed only when still falsy |
| Analyzer.SourcesJoinedEmpty | analyzer.py:65-69 | with neither a source name nor a URL the source string is "" (not "()") |
| Analyzer.SourcesJoinedNamed | analyzer.py:65-69 | a trimmed name and a non-blank URL give "name (url)" |
| Analyzer.RejestrioSources | analyzer.py:65-69 | a rejestr.io record found by NIP is credited as "rejestr.io (https://rejestr.io/nip/<digits>)" |
| Analyzer.RowFilled | analyzer.py:92-103 | every output cell is truthy; "Przychody" is a figure exactly when the resolved revenue is truthy |
| Analyzer.UnresolvedRow | analyzer.py:86-103 | without a record the row holds the input name and NIP (or "brak danych"), "brak" for the group, and "brak danych" elsewhere |
| Analyzer.FinishKeepsGroup | analyzer.py:60-69 | neither the overlay nor the source string touches `group` |
| Analyzer.ResolvedGroup | analyzer.py:31-71 | the resolved `group` is that of the record found, or None |
| Analyzer.GroupColumn | analyzer.py:100 | "Grupa kapitałowa" is "TAK" exactly when the record found carries a truthy `group` |
| Analyzer.RejestrioGroupAbsent | analyzer.py:100 | a row resolved from a rejestr.io record always reads "brak" under "Grupa kapitałowa", whatever its group name |
| Analyzer.MapRowsProps | analyzer.py:86-103 | the run produces one row per input row, in order, exactly when no lookup raised |
| Analyzer.MapRowsRaisedStays | analyzer.py:86-103 | once a row raises, the whole run has raised |
| Analyzer.Report | analyzer.py:86-103 | the row loop produces exactly the rows of `MapRows`, stopping at the first exception |

## Left out

- File and console I/O is not modelled. This covers pandas CSV/XLSX reading and writing, `argparse`, `print` and `now_iso`. The input table is a header list with one map per row.
- pandas details are not modelled: `NaN` cells, dtype inference and `astype(str)` of non-strings. Cells are strings, and the analyzer's dictionary values are None, strings, booleans or integers; floats do not occur.
- Network requests, `time.sleep`, the User-Agent and timeouts are left out. A request is a function parameter that answers with a response or a network error.
- HTML parsing (BeautifulSoup/lxml) is left out. A page is its text, with `get_text(" ", strip=True)` already applied, plus its anchors with href and label text.
- The KRS adapter is not part of this model. Its two lookups are function parameters.
- `str.lower`, `urllib.parse.urljoin`, `quote_plus` and rapidfuzz's `WRatio` are function parameters.
- `Text.IsDecimal` follows the decimal-digit ranges of Unicode 15.0; a Python built on another Unicode version may differ in the newest scripts.
- `\b` in the NIP/KRS patterns counts only ASCII letters and digits, `_` and Polish letters as word characters, not all of Unicode `\w`.
- The "Grupa kapitałowa" pattern and the PDF label patterns are abstract matchers. They use lazy `.*?` and `re.IGNORECASE`. The cascade over each list, the first-match rule and the cleaning of the captures are modelled.
- FinancialsPdf.ExtractRevenueAndEmployment (and RdfSprawozdania.LatestFinancialsFromDocsUrl, which calls it) cleans the revenue with the corrected `FinancialsPdf.FirstNumber`, not with the code as written. A capture " 1 234 567" gives "1234567" here but "1" in the code; `FinancialsPdf.FirstNumberAsWritten` models the code's result, and the finding below records the difference.
- FinancialsPdf.FirstNumber: follows the compaction the code prepares, including its comma-to-dot step, so even the corrected cleaning drops comma decimals ("1 234,56" gives "1234", see `FinancialsPdf.FirstNumberDropsCommaDecimals`). The model does not guess a further intended behaviour.
- A revenue pattern's lazy `[^\n]*?` is followed by `([\d\s\.,]+)`, so a label followed by a space and then a word captures just " ". Both versions of `_first_number` then return " " unchanged, which is truthy and becomes `revenue_value`. The label patterns are abstract matchers, so the model keeps this case only through `FirstNumber`'s "no digit, unchanged" clause.
- pdfplumber is a parameter. It either raises or yields pages whose text is present, absent or whose extraction raised.
- The import of `parsers.financials_pdf` in adapters/rdf_sprawozdania.py:46 is taken to be adapters/financials_pdf.py.
- `list.sort` on the candidates is modelled as a stable sort function on a sequence, not in place. The sort is a library call in the source.
- Analyzer.Report: does not return the calls of each row, only the rows or the exception.
- In the code, exceptions from rejestr.io requests, from the PDF download and from opening the PDF are not caught. They propagate as `Raised`, although the comments suggest failures simply give None.
- At adapters/rdf_sprawozdania.py:35 the comment says the last item is taken when no year is found. The stable sort actually takes the first candidate with the greatest year hint, which is the first PDF link when none has a year. The model follows the code.

## Findings

| source | as written | input that shows it | evidently intended | confidence | as-written member | corrected member |
|---|---|---|---|---|---|---|
| adapters/financials_pdf.py:23-30 | the number is searched in `s` with only no-break spaces replaced, so the compacted `x` is built and never used | a captured revenue "1 234 567" gives "1" | search the compacted string, giving "1234567" | not executed | FinancialsPdf.FirstNumberAsWrittenCutsAtSpace | FinancialsPdf.FirstNumberJoinsSpacedThousands |
