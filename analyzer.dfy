/**
 * analyzer.py: the orchestrator. `resolve_company` asks the registry
 * adapters for a record, tax ID before name and `krs` before `rejestrio`,
 * merges it into a fresh result, overlays the figures read from the latest
 * financial statement and composes the source string; `main` turns every
 * input row into one output row with placeholders for what is missing.
 *
 * The adapters and the statement resolver are function parameters: each
 * either returns an optional record or raises.
 */
module Analyzer {
  import opened Common
  import opened Text
  import opened Match
  import R = Rejestrio

  // ---------------------------------------------------------------------------
  // Python helpers on record values

  /** `d.get(k)`: None for a missing key. */
  function Get(d: Dict, k: string): Value {
    if k in d then d[k] else Null
  }

  /** `a or b`. */
  function Or(a: Value, b: Value): Value {
    if Truthy(a) then a else b
  }

  function DigitChar(n: nat): char
    requires n < 10
  {
    "0123456789"[n]
  }

  /** `str(n)` for a natural number. */
  function NatToString(n: nat): string
    decreases n
  {
    if n < 10 then [DigitChar(n)] else NatToString(n / 10) + [DigitChar(n % 10)]
  }

  /** `str(v)`, as an f-string renders it. */
  function Render(v: Value): string {
    match v
    case Null => "None"
    case Str(s) => s
    case Bool(b) => if b then "True" else "False"
    case Int(i) => if i < 0 then "-" + NatToString(-i) else NatToString(i)
  }

  /**
   * `safe(x, fallback)`: the fallback stands in for None and for a string
   * holding nothing but whitespace; any other value comes back as it is,
   * not trimmed.
   */
  function Safe(x: Value, fallback: Value): (r: Value)
    ensures x.Null? || (x.Str? && IsBlank(x.s)) ==> r == fallback
    ensures !(x.Null? || (x.Str? && IsBlank(x.s))) ==> r == x
  {
    match x
    case Null => fallback
    case Str(s) =>
      StripEmptyIffBlank(s);
      if Strip(s) == "" then fallback else x
    case _ => x
  }

  // ---------------------------------------------------------------------------
  // Adapters and the calls made to them

  datatype Source = Krs | Rejestrio

  /** One call into an adapter or the statement resolver. */
  datatype Call = ByNip(source: Source, key: string) | ByName(source: Source, key: string) | Financials(url: Value)

  /** `lookup_by_nip` or `lookup_by_name` of one adapter. */
  type Adapter = string -> Outcome<Option<Dict>>

  datatype Adapters = Adapters(krsByNip: Adapter, rejestrioByNip: Adapter, krsByName: Adapter, rejestrioByName: Adapter)

  /** `latest_financials_from_docs_url`, given the value stored under `rdf_docs_url`. */
  type Resolver = Value -> Outcome<Option<Dict>>

  /** A result (or the exception) together with the calls made, in order. */
  datatype Step<+T> = Step(out: Outcome<T>, calls: seq<Call>)

  /** A truthy record: present and not empty. */
  predicate Found(d: Option<Dict>) {
    d.Some? && d.value != map[]
  }

  /** The adapter returned without raising, and what it returned is falsy. */
  predicate Falsy(o: Outcome<Option<Dict>>) {
    o.Ok? && !Found(o.value)
  }

  /** `first(key) or second(key)`. */
  function FirstOf(first: Adapter, second: Adapter, key: string, c1: Call, c2: Call): Step<Option<Dict>> {
    var a := first(key);
    if Falsy(a) then Step(second(key), [c1, c2]) else Step(a, [c1])
  }

  // ---------------------------------------------------------------------------
  // resolve_company

  /** `nip.strip() if isinstance(nip, str) else None`. */
  function NipKey(nip: Value): (k: Value)
    ensures nip.Str? ==> k.Str? && k.s == Strip(nip.s)
    ensures !nip.Str? ==> k == Null
  {
    match nip
    case Str(s) => Str(Strip(s))
    case _ => Null
  }

  /** The fields every result starts with. */
  const RecordKeys: set<string> := {"original_name", "name", "legal_form", "nip", "group", "group_name",
                                    "employment", "revenue_value", "revenue_year", "source_name",
                                    "source_url", "sources_joined"}

  /** The fields the financial statement may overwrite. */
  const OverlaidKeys: set<string> := {"revenue_value", "revenue_year", "employment"}

  /** The result before any adapter answers, for the normalised name and the tax-ID key. */
  function InitialRecord(norm: string, key: Value): (d: Dict)
    ensures d.Keys == RecordKeys
  {
    map["original_name" := Str(norm), "name" := Null, "legal_form" := Null,
        "nip" := key, "group" := Null, "group_name" := Null, "employment" := Null,
        "revenue_value" := Null, "revenue_year" := Null, "source_name" := Null, "source_url" := Null,
        "sources_joined" := Str("")]
  }

  /** The tax-ID stage: nothing is asked for an empty key. */
  function NipStage(key: Value, ads: Adapters): Step<Option<Dict>> {
    if key.Str? && key.s != "" then
      FirstOf(ads.krsByNip, ads.rejestrioByNip, key.s, ByNip(Krs, key.s), ByNip(Rejestrio, key.s))
    else Step(Ok(None), [])
  }

  /** The name stage. */
  function NameStage(norm: string, ads: Adapters): Step<Option<Dict>> {
    FirstOf(ads.krsByName, ads.rejestrioByName, norm, ByName(Krs, norm), ByName(Rejestrio, norm))
  }

  /** `data` after both stages; the name stage runs only when the tax-ID stage found nothing. */
  function Lookup(norm: string, key: Value, ads: Adapters): Step<Option<Dict>> {
    var s1 := NipStage(key, ads);
    if s1.out.Raised? || Found(s1.out.value) || norm == "" then s1
    else
      var s2 := NameStage(norm, ads);
      Step(s2.out, s1.calls + s2.calls)
  }

  /** The financial overlay: each of the three fields takes the statement's value when truthy. */
  function Overlay(result: Dict, fin: Dict): Dict {
    result["revenue_value" := Or(Get(fin, "revenue_value"), Get(result, "revenue_value"))]
          ["revenue_year" := Or(Get(fin, "revenue_year"), Get(result, "revenue_year"))]
          ["employment" := Or(Get(fin, "employment"), Get(result, "employment"))]
  }

  /**
   * `f"{safe(source_name, '')} ({safe(source_url, '')})".strip()`, with "()"
   * dropped, for the record's `source_name` and `source_url`.
   */
  function SourcesJoined(sourceName: Value, sourceUrl: Value): string {
    var src := Strip(Render(Safe(sourceName, Str(""))) + " (" + Render(Safe(sourceUrl, Str(""))) + ")");
    if src == "()" then "" else src
  }

  /** `sources_joined` is composed only when the record does not already carry one. */
  function WithSources(result: Dict): Dict {
    if Truthy(Get(result, "sources_joined")) then result
    else result["sources_joined" := Str(SourcesJoined(Get(result, "source_name"), Get(result, "source_url")))]
  }

  /** The finished record once data was found: merge, overlay, sources. */
  function Finish(merged: Dict, finances: Option<Dict>): Dict {
    WithSources(if Found(finances) then Overlay(merged, finances.value) else merged)
  }

  /**
   * `resolve_company`, with the calls it makes, for the normalised name
   * `norm` and the tax-ID key `key` it computes first.
   */
  function Resolve(norm: string, key: Value, ads: Adapters, resolver: Resolver): Step<Dict> {
    var look := Lookup(norm, key, ads);
    match look.out
    case Raised => Step(Raised, look.calls)
    case Ok(data) =>
      if !Found(data) then Step(Ok(InitialRecord(norm, key)), look.calls)
      else
        var merged := InitialRecord(norm, key) + data.value;
        var url := Get(data.value, "rdf_docs_url");
        if !Truthy(url) then Step(Ok(Finish(merged, None)), look.calls)
        else
          match resolver(url)
          case Raised => Step(Raised, look.calls + [Financials(url)])
          case Ok(fin) => Step(Ok(Finish(merged, fin)), look.calls + [Financials(url)])
  }

  /**
   * Lines 48-52 of `resolve_company`: `data` from the two stages, each an
   * `or` of krs and rejestrio; an exception from an adapter propagates.
   */
  method LookupData(norm: string, key: Value, ads: Adapters) returns (data: Outcome<Option<Dict>>, calls: seq<Call>)
    ensures Step(data, calls) == Lookup(norm, key, ads)
  {
    calls := [];
    data := Ok(None);
    if key.Str? && key.s != "" {
      calls := [ByNip(Krs, key.s)];
      data := ads.krsByNip(key.s);
      if Falsy(data) {
        calls := calls + [ByNip(Rejestrio, key.s)];
        data := ads.rejestrioByNip(key.s);
      }
    }
    if data.Raised? {
      return;
    }
    if !Found(data.value) && norm != "" {
      calls := calls + [ByName(Krs, norm)];
      data := ads.krsByName(norm);
      if Falsy(data) {
        calls := calls + [ByName(Rejestrio, norm)];
        data := ads.rejestrioByName(norm);
      }
    }
  }

  /**
   * `resolve_company`: builds the result dict and updates it in place;
   * an exception from an adapter or the resolver propagates.
   */
  method ResolveCompany(name: string, nip: Value, ads: Adapters, resolver: Resolver)
    returns (res: Outcome<Dict>, calls: seq<Call>)
    ensures Step(res, calls) == Resolve(Normalize(Some(name)), NipKey(nip), ads, resolver)
  {
    var norm := Normalize(Some(name));
    var key := NipKey(nip);
    var result := InitialRecord(norm, key);
    var data;
    data, calls := LookupData(norm, key, ads);
    if data.Raised? {
      return Raised, calls;
    }
    if Found(data.value) {
      var found := data.value.value;
      result := result + found;
      var finances: Option<Dict> := None;
      var url := Get(found, "rdf_docs_url");
      if Truthy(url) {
        calls := calls + [Financials(url)];
        var f := resolver(url);
        if f.Raised? {
          return Raised, calls;
        }
        finances := f.value;
      }
      if Found(finances) {
        result := result["revenue_value" := Or(Get(finances.value, "revenue_value"), Get(result, "revenue_value"))];
        result := result["revenue_year" := Or(Get(finances.value, "revenue_year"), Get(result, "revenue_year"))];
        result := result["employment" := Or(Get(finances.value, "employment"), Get(result, "employment"))];
      }
      if !Truthy(Get(result, "sources_joined")) {
        result := result["sources_joined" := Str(SourcesJoined(Get(result, "source_name"), Get(result, "source_url")))];
      }
    }
    res := Ok(result);
  }

  // ---------------------------------------------------------------------------
  // Properties of resolve_company

  /** Position of a call in the fixed order of the cascade. */
  function Rank(c: Call): nat {
    match c
    case ByNip(Krs, _) => 0
    case ByNip(Rejestrio, _) => 1
    case ByName(Krs, _) => 2
    case ByName(Rejestrio, _) => 3
    case Financials(_) => 4
  }

  predicate InOrder(calls: seq<Call>) {
    forall i, j :: 0 <= i < j < |calls| ==> Rank(calls[i]) < Rank(calls[j])
  }

  /** The tax-ID stage finished without raising and without a truthy record. */
  predicate NipStageEmpty(key: Value, ads: Adapters) {
    !(key.Str? && key.s != "") || (Falsy(ads.krsByNip(key.s)) && Falsy(ads.rejestrioByNip(key.s)))
  }

  /**
   * The tax-ID stage: `krs` is asked first and only for a non-empty key;
   * `rejestrio` is asked only when `krs` answered with nothing.
   */
  lemma NipStageCalls(key: Value, ads: Adapters)
    ensures var calls := NipStage(key, ads).calls;
            && InOrder(calls)
            && (forall k :: ByNip(Krs, k) in calls <==> key == Str(k) && k != "")
            && (forall k :: ByNip(Rejestrio, k) in calls <==> key == Str(k) && k != "" && Falsy(ads.krsByNip(k)))
            && (forall c :: c in calls ==> c.ByNip?)
    ensures Falsy(NipStage(key, ads).out) <==> NipStageEmpty(key, ads)
  {
  }

  /** The name stage: `krs` first; `rejestrio` only when `krs` answered with nothing. */
  lemma NameStageCalls(norm: string, ads: Adapters)
    ensures var calls := NameStage(norm, ads).calls;
            && InOrder(calls)
            && (forall k :: ByName(Krs, k) in calls <==> k == norm)
            && (forall k :: ByName(Rejestrio, k) in calls <==> k == norm && Falsy(ads.krsByName(k)))
            && (forall c :: c in calls ==> c.ByName?)
  {
  }

  /** Two ordered traces, all of the first ranked before all of the second, concatenate in order. */
  lemma InOrderConcat(a: seq<Call>, b: seq<Call>)
    requires InOrder(a) && InOrder(b)
    requires forall c, d :: c in a && d in b ==> Rank(c) < Rank(d)
    ensures InOrder(a + b)
  {
    var ab := a + b;
    forall i, j | 0 <= i < j < |ab|
      ensures Rank(ab[i]) < Rank(ab[j])
    {
      if j < |a| {
        assert ab[i] == a[i] && ab[j] == a[j];
      } else if i < |a| {
        assert ab[i] == a[i] && ab[j] == b[j - |a|];
      } else {
        assert ab[i] == b[i - |a|] && ab[j] == b[j - |a|];
      }
    }
  }

  /**
   * The adapter cascade of `resolve_company`: the calls come in the order
   * krs by tax ID, rejestrio by tax ID, krs by name, rejestrio by name, and
   * each is made exactly when every earlier one answered with nothing.
   */
  lemma {:induction false} AdapterCascade(norm: string, key: Value, ads: Adapters)
    ensures var calls := Lookup(norm, key, ads).calls;
            && InOrder(calls)
            && (forall k :: ByNip(Krs, k) in calls <==> key == Str(k) && k != "")
            && (forall k :: ByNip(Rejestrio, k) in calls <==> key == Str(k) && k != "" && Falsy(ads.krsByNip(k)))
            && (forall k :: ByName(Krs, k) in calls <==> k == norm && norm != "" && NipStageEmpty(key, ads))
            && (forall k :: ByName(Rejestrio, k) in calls <==>
                  k == norm && norm != "" && NipStageEmpty(key, ads) && Falsy(ads.krsByName(k)))
            && (forall c :: c in calls ==> !c.Financials?)
  {
    var s1 := NipStage(key, ads);
    NipStageCalls(key, ads);
    if Falsy(s1.out) && norm != "" {
      var s2 := NameStage(norm, ads);
      NameStageCalls(norm, ads);
      InOrderConcat(s1.calls, s2.calls);
      assert forall c :: c in s1.calls + s2.calls <==> c in s1.calls || c in s2.calls;
    } else {
      assert forall c :: c in s1.calls ==> c.ByNip?;
    }
  }

  /**
   * The statement resolver is asked once, after the adapters, exactly when
   * the record found carries a truthy `rdf_docs_url`, and with that value.
   */
  lemma ResolverCall(norm: string, key: Value, ads: Adapters, resolver: Resolver)
    ensures var look := Lookup(norm, key, ads);
            var calls := Resolve(norm, key, ads, resolver).calls;
            && (look.out.Ok? && Found(look.out.value) && Truthy(Get(look.out.value.value, "rdf_docs_url")) ==>
                  calls == look.calls + [Financials(Get(look.out.value.value, "rdf_docs_url"))])
            && (!(look.out.Ok? && Found(look.out.value) && Truthy(Get(look.out.value.value, "rdf_docs_url"))) ==>
                  calls == look.calls)
  {
  }

  /**
   * When no adapter answers with a record, the result is the initial one:
   * the normalised name, the tax-ID key, an empty source string, and None
   * everywhere else.
   */
  lemma NoDataKeepsInitial(norm: string, key: Value, ads: Adapters, resolver: Resolver)
    requires Falsy(Lookup(norm, key, ads).out)
    ensures var r := Resolve(norm, key, ads, resolver).out;
            && r.Ok?
            && r.value.Keys == RecordKeys
            && r.value["original_name"] == Str(norm)
            && r.value["nip"] == key
            && r.value["sources_joined"] == Str("")
            && forall k :: k in RecordKeys && k !in {"original_name", "nip", "sources_joined"} ==> r.value[k] == Null
  {
  }

  /** What the resolver contributes, given the record found, when the run did not raise. */
  function FinancesOf(data: Dict, resolver: Resolver): Option<Dict> {
    var url := Get(data, "rdf_docs_url");
    if Truthy(url) && resolver(url).Ok? then resolver(url).value else None
  }

  /** The overlay changes the three financial fields, each to the statement's value when truthy, and nothing else. */
  lemma OverlayFields(merged: Dict, fin: Dict)
    requires OverlaidKeys <= merged.Keys
    ensures var r := Overlay(merged, fin);
            && r.Keys == merged.Keys
            && (forall k :: k in merged && k !in OverlaidKeys ==> r[k] == merged[k])
            && (forall k :: k in OverlaidKeys ==> r[k] == Or(Get(fin, k), merged[k]))
  {
  }

  /** Composing the source string changes `sources_joined` only, and only when it was falsy. */
  lemma WithSourcesFields(r: Dict)
    requires "sources_joined" in r
    ensures var w := WithSources(r);
            && w.Keys == r.Keys
            && (forall k :: k in r && k != "sources_joined" ==> w[k] == r[k])
            && w["sources_joined"] == (if Truthy(r["sources_joined"]) then r["sources_joined"]
                                       else Str(SourcesJoined(Get(r, "source_name"), Get(r, "source_url"))))
  {
  }

  /**
   * The finishing steps: the statement's truthy figures overwrite the three
   * financial fields and nothing else; `sources_joined` is composed only
   * when still falsy.
   */
  lemma FinishFields(merged: Dict, fin: Option<Dict>)
    requires RecordKeys <= merged.Keys
    ensures var r := Finish(merged, fin);
            && r.Keys == merged.Keys
            && (forall k :: k in merged && k !in OverlaidKeys && k != "sources_joined" ==> r[k] == merged[k])
            && (forall k :: k in OverlaidKeys ==>
                  r[k] == (if Found(fin) then Or(Get(fin.value, k), merged[k]) else merged[k]))
            && r["sources_joined"] == (if Truthy(merged["sources_joined"]) then merged["sources_joined"]
                                       else Str(SourcesJoined(Get(merged, "source_name"), Get(merged, "source_url"))))
  {
    assert OverlaidKeys <= RecordKeys;
    var o := if Found(fin) then Overlay(merged, fin.value) else merged;
    if Found(fin) {
      OverlayFields(merged, fin.value);
      assert "sources_joined" !in OverlaidKeys && "source_name" !in OverlaidKeys && "source_url" !in OverlaidKeys;
    }
    WithSourcesFields(o);
  }

  /**
   * Merging: `result.update(data)` lets the record found overwrite the
   * initial fields; afterwards the statement's truthy figures overwrite the
   * three financial fields and nothing else, and `sources_joined` is
   * composed only when still falsy.
   */
  lemma MergedRecord(norm: string, key: Value, ads: Adapters, resolver: Resolver)
    requires Lookup(norm, key, ads).out.Ok? && Found(Lookup(norm, key, ads).out.value)
    requires Resolve(norm, key, ads, resolver).out.Ok?
    ensures var data := Lookup(norm, key, ads).out.value.value;
            var merged := InitialRecord(norm, key) + data;
            var fin := FinancesOf(data, resolver);
            var r := Resolve(norm, key, ads, resolver).out.value;
            && r.Keys == RecordKeys + data.Keys
            && (forall k :: k in merged && k !in OverlaidKeys && k != "sources_joined" ==> r[k] == merged[k])
            && (forall k :: k in OverlaidKeys ==>
                  r[k] == (if Found(fin) then Or(Get(fin.value, k), merged[k]) else merged[k]))
            && r["sources_joined"] == (if Truthy(merged["sources_joined"]) then merged["sources_joined"]
                                       else Str(SourcesJoined(Get(merged, "source_name"), Get(merged, "source_url"))))
  {
    var data := Lookup(norm, key, ads).out.value.value;
    var merged := InitialRecord(norm, key) + data;
    FinishFields(merged, FinancesOf(data, resolver));
    assert Resolve(norm, key, ads, resolver).out.value == Finish(merged, FinancesOf(data, resolver));
  }

  // ---------------------------------------------------------------------------
  // The source string

  /** With neither a source name nor a source URL the source string is empty. */
  lemma SourcesJoinedEmpty(sourceName: Value, sourceUrl: Value)
    requires sourceName.Null? || (sourceName.Str? && IsBlank(sourceName.s))
    requires sourceUrl.Null? || (sourceUrl.Str? && IsBlank(sourceUrl.s))
    ensures SourcesJoined(sourceName, sourceUrl) == ""
  {
    var s := " ()";
    assert Render(Safe(sourceName, Str(""))) + " (" + Render(Safe(sourceUrl, Str(""))) + ")" == s;
    assert !IsSpace(s[1]);
    assert LeadingSpaces(s) == 1;
    assert s[1..] == "()";
    assert TrailingStart("()") == 2;
  }

  /** A trimmed source name and a non-blank URL give `"name (url)"`. */
  lemma SourcesJoinedNamed(n: string, u: string)
    requires n != "" && !IsSpace(n[0]) && !IsBlank(u)
    ensures SourcesJoined(Str(n), Str(u)) == n + " (" + u + ")"
  {
    var src := n + " (" + u + ")";
    assert src[0] == n[0];
    StripOfTrimmed(src);
  }

  /** A record from rejestr.io found by tax ID is credited as `rejestr.io (<its page>)`. */
  lemma RejestrioSources(rec: R.CompanyRecord, d: string)
    requires |d| == 10 && AllDecimal(d) && rec.sourceUrl == Some(R.NipUrlPrefix + d)
    ensures var rd := R.AsDict(rec);
            SourcesJoined(rd["source_name"], rd["source_url"]) == R.SourceName + " (" + (R.NipUrlPrefix + d) + ")"
  {
    var u := R.NipUrlPrefix + d;
    assert u[0] == 'h';
    assert R.AsDict(rec)["source_url"] == Str(u);
    SourcesJoinedNamed(R.SourceName, u);
  }

  // ---------------------------------------------------------------------------
  // main: one output row per input row

  /** The nine output columns, in `OUT_COLUMNS` order. */
  datatype OutRow = OutRow(nazwa: Value, prawidlowaNazwa: Value, formaPrawna: Value, nip: Value,
                           przychody: Value, zatrudnienie: Value, grupaKapitalowa: Value,
                           nazwaGrupy: Value, zrodlo: Value)

  const Missing: Value := Str("brak danych")

  /** `str(r.get(column) or "").strip()` for one input cell. */
  function Cell(row: Dict, column: string): string {
    Strip(Render(Or(Get(row, column), Str(""))))
  }

  /** The output row for input name `nazwa`, input tax ID `nip` and the resolved record. */
  function FormatRow(nazwa: string, nip: string, resolved: Dict): OutRow {
    var revenue := Get(resolved, "revenue_value");
    OutRow(
      Or(Str(nazwa), Missing),
      Or(Get(resolved, "name"), Missing),
      Or(Get(resolved, "legal_form"), Missing),
      Or(Get(resolved, "nip"), if nip != "" then Str(nip) else Missing),
      if Truthy(revenue) then Str(Render(revenue) + " (rok " + Render(Get(resolved, "revenue_year")) + ")")
      else Missing,
      Or(Get(resolved, "employment"), Missing),
      if Truthy(Get(resolved, "group")) then Str("TAK") else Str("brak"),
      Or(Get(resolved, "group_name"), Missing),
      Or(Get(resolved, "sources_joined"), Missing))
  }

  predicate Filled(row: OutRow) {
    && Truthy(row.nazwa) && Truthy(row.prawidlowaNazwa) && Truthy(row.formaPrawna) && Truthy(row.nip)
    && Truthy(row.przychody) && Truthy(row.zatrudnienie) && Truthy(row.grupaKapitalowa)
    && Truthy(row.nazwaGrupy) && Truthy(row.zrodlo)
  }

  /** No column of an output row is ever empty: a placeholder stands in for every missing value. */
  lemma RowFilled(nazwa: string, nip: string, resolved: Dict)
    ensures Filled(FormatRow(nazwa, nip, resolved))
    ensures FormatRow(nazwa, nip, resolved).przychody != Missing <==> Truthy(Get(resolved, "revenue_value"))
  {
    var revenue := Get(resolved, "revenue_value");
    if Truthy(revenue) {
      var s := Render(revenue) + " (rok " + Render(Get(resolved, "revenue_year")) + ")";
      assert s[|s| - 1] == ')';
    }
  }

  /** When no record is found, the row carries only the input and placeholders. */
  lemma UnresolvedRow(nazwa: string, nip: string, norm: string, ads: Adapters, resolver: Resolver)
    requires Falsy(Lookup(norm, NipKey(Str(nip)), ads).out)
    requires nip == Strip(nip)
    ensures var row := FormatRow(nazwa, nip, Resolve(norm, NipKey(Str(nip)), ads, resolver).out.value);
            row == OutRow(if nazwa != "" then Str(nazwa) else Missing, Missing, Missing,
                          if nip != "" then Str(nip) else Missing, Missing, Missing, Str("brak"),
                          Missing, Missing)
  {
    NoDataKeepsInitial(norm, NipKey(Str(nip)), ads, resolver);
  }

  /** Neither the overlay nor the source string touches `group`. */
  lemma FinishKeepsGroup(merged: Dict, fin: Option<Dict>)
    ensures Get(Finish(merged, fin), "group") == Get(merged, "group")
  {
    var o := if Found(fin) then Overlay(merged, fin.value) else merged;
    assert Get(o, "group") == Get(merged, "group");
    assert Get(WithSources(o), "group") == Get(o, "group");
  }

  /** The resolved `group` is the one of the record found, or None: nothing else sets it. */
  lemma ResolvedGroup(norm: string, key: Value, ads: Adapters, resolver: Resolver)
    requires Resolve(norm, key, ads, resolver).out.Ok?
    ensures var look := Lookup(norm, key, ads).out;
            Get(Resolve(norm, key, ads, resolver).out.value, "group")
              == if look.Ok? && Found(look.value) then Get(look.value.value, "group") else Null
  {
    var look := Lookup(norm, key, ads).out;
    if look.Ok? && Found(look.value) {
      var data := look.value.value;
      var merged := InitialRecord(norm, key) + data;
      var fin := FinancesOf(data, resolver);
      assert Resolve(norm, key, ads, resolver).out.value == Finish(merged, fin);
      FinishKeepsGroup(merged, fin);
      assert Get(merged, "group") == Get(data, "group");
    } else {
      assert Resolve(norm, key, ads, resolver).out.value == InitialRecord(norm, key);
    }
  }

  /**
   * "Grupa kapitałowa" reads TAK exactly when the record the adapters found
   * carries a truthy `group`: neither the initial record, the overlay nor
   * the source string sets it.
   */
  lemma GroupColumn(norm: string, key: Value, ads: Adapters, resolver: Resolver, n: string, t: string)
    requires Resolve(norm, key, ads, resolver).out.Ok?
    ensures var look := Lookup(norm, key, ads).out;
            var row := FormatRow(n, t, Resolve(norm, key, ads, resolver).out.value);
            row.grupaKapitalowa == Str("TAK") <==>
              look.Ok? && Found(look.value) && Truthy(Get(look.value.value, "group"))
  {
    var r := Resolve(norm, key, ads, resolver).out.value;
    assert FormatRow(n, t, r).grupaKapitalowa == (if Truthy(Get(r, "group")) then Str("TAK") else Str("brak"));
    ResolvedGroup(norm, key, ads, resolver);
  }

  /** A record from rejestr.io never has a `group` key, so its row always reads "brak". */
  lemma RejestrioGroupAbsent(norm: string, key: Value, ads: Adapters, resolver: Resolver, n: string, t: string,
                             rec: R.CompanyRecord)
    requires Lookup(norm, key, ads).out == Ok(Some(R.AsDict(rec)))
    requires Resolve(norm, key, ads, resolver).out.Ok?
    ensures FormatRow(n, t, Resolve(norm, key, ads, resolver).out.value).grupaKapitalowa == Str("brak")
  {
    GroupColumn(norm, key, ads, resolver, n, t);
  }

  /** `resolve_company(nazwa, nip)` for the trimmed cells of one input row. */
  function RowResolution(row: Dict, ads: Adapters, resolver: Resolver): Outcome<Dict> {
    Resolve(Normalize(Some(Cell(row, "nazwa"))), NipKey(Str(Cell(row, "nip"))), ads, resolver).out
  }

  /** The output row for one input row, or the exception its lookup raised. */
  function RowOut(row: Dict, ads: Adapters, resolver: Resolver): Outcome<OutRow> {
    match RowResolution(row, ads, resolver)
    case Raised => Raised
    case Ok(resolved) => Ok(FormatRow(Cell(row, "nazwa"), Cell(row, "nip"), resolved))
  }

  /** `RowOut` for fixed adapters and resolver. */
  function RowOutOf(ads: Adapters, resolver: Resolver): Dict -> Outcome<OutRow> {
    (row: Dict) => RowOut(row, ads, resolver)
  }

  /** `f` applied to every row in order, stopping at the first exception. */
  function MapRows<T>(rows: seq<Dict>, f: Dict -> Outcome<T>): Outcome<seq<T>> {
    if rows == [] then Ok([])
    else
      match MapRows(rows[..|rows| - 1], f)
      case Raised => Raised
      case Ok(init) =>
        match f(rows[|rows| - 1])
        case Raised => Raised
        case Ok(row) => Ok(init + [row])
  }

  /** The result covers every row, in order, unless some row raised. */
  lemma {:induction false} MapRowsProps<T>(rows: seq<Dict>, f: Dict -> Outcome<T>)
    ensures MapRows(rows, f).Ok? <==> forall i :: 0 <= i < |rows| ==> f(rows[i]).Ok?
    ensures MapRows(rows, f).Ok? ==>
              && |MapRows(rows, f).value| == |rows|
              && forall i :: 0 <= i < |rows| ==> f(rows[i]) == Ok(MapRows(rows, f).value[i])
  {
    if rows != [] {
      var init := rows[..|rows| - 1];
      MapRowsProps(init, f);
      assert forall i :: 0 <= i < |init| ==> init[i] == rows[i];
    }
  }

  /** Once a row raises, the run has raised whatever rows follow. */
  lemma {:induction false} MapRowsRaisedStays<T>(rows: seq<Dict>, n: nat, f: Dict -> Outcome<T>)
    requires n <= |rows| && MapRows(rows[..n], f).Raised?
    ensures MapRows(rows, f).Raised?
  {
    if n < |rows| {
      var init := rows[..|rows| - 1];
      assert init[..n] == rows[..n];
      MapRowsRaisedStays(init, n, f);
    } else {
      assert rows[..n] == rows;
    }
  }

  /**
   * The row loop of `main`: the rows written are `RowOut` of every input
   * row, in order, unless a lookup raised (see `MapRowsProps`).
   */
  method Report(rows: seq<Dict>, ads: Adapters, resolver: Resolver) returns (out: Outcome<seq<OutRow>>)
    ensures out == MapRows(rows, RowOutOf(ads, resolver))
  {
    var rowsOut: seq<OutRow> := [];
    for i := 0 to |rows|
      invariant MapRows(rows[..i], RowOutOf(ads, resolver)) == Ok(rowsOut)
    {
      var nazwa := Cell(rows[i], "nazwa");
      var nip := Cell(rows[i], "nip");
      var resolved, _ := ResolveCompany(nazwa, Str(nip), ads, resolver);
      assert rows[..i + 1][..i] == rows[..i];
      assert resolved == RowResolution(rows[i], ads, resolver);
      if resolved.Raised? {
        MapRowsRaisedStays(rows, i + 1, RowOutOf(ads, resolver));
        return Raised;
      }
      rowsOut := rowsOut + [FormatRow(nazwa, nip, resolved.value)];
    }
    assert rows[..|rows|] == rows;
    out := Ok(rowsOut);
  }
}
