/**
 * prep_input.py: turning a raw company table into the cleaned two-column
 * input of the analyzer. The header of the name column and of the tax-ID
 * (NIP) column are guessed, every NIP is reduced to its digits and kept only
 * at exactly ten, junk rows are dropped and duplicate (name, NIP) pairs are
 * removed, first occurrence kept.
 *
 * A table is its list of column headers plus one `map` per row from header
 * to cell text (the file is read with every cell as a string).
 */
module PrepInput {
  import opened Common
  import opened Text

  datatype InputRow = InputRow(nazwa: string, nip: string)

  datatype PrepError = NoNameColumn

  datatype Prepared = Prepared(rows: seq<InputRow>) | Aborted(error: PrepError)

  // ---------------------------------------------------------------------------
  // norm_nip

  /**
   * `norm_nip(x)`: the decimal digits of `x`, in any script, when there are
   * exactly ten of them, else "".
   */
  function NormNip(x: string): (r: string)
    ensures r == "" || (|r| == 10 && AllDecimal(r))
    ensures |Digits(x)| == 10 ==> r == Digits(x)
    ensures |Digits(x)| != 10 ==> r == ""
  {
    var d := Digits(x);
    if |d| == 10 then d else ""
  }

  /** Decimal digits of other scripts count: a NIP typed in fullwidth digits is kept as it is. */
  lemma NormNipKeepsFullwidthDigits()
    ensures NormNip("１２３４５６７８９０") == "１２３４５６７８９０"
  {
    var d := "１２３４５６７８９０";
    forall k | 0 <= k < |d|
      ensures IsDecimal(d[k])
    {
      FullwidthIsDecimal(d[k]);
    }
    DigitsOfDigits(d);
  }

  /** The fullwidth digits U+FF10 to U+FF19 are decimal digits. */
  lemma FullwidthIsDecimal(c: char)
    requires '\U{FF10}' <= c <= '\U{FF19}'
    ensures IsDecimal(c)
  {
  }

  /** A normalised NIP is a fixed point of the normalisation. */
  lemma NormNipIdempotent(x: string)
    ensures NormNip(NormNip(x)) == NormNip(x)
  {
    if NormNip(x) != "" {
      DigitsOfDigits(NormNip(x));
    }
  }

  // ---------------------------------------------------------------------------
  // The header dictionary `{c.lower().strip(): c for c in df.columns}`
  //
  // The dictionary and the search over it are stated for any key function
  // `key` and any key test `matches`; `HeaderKey` and `ContainsAny` are the
  // ones the script uses.

  /** `c.lower().strip()`, with `lower` standing for Python's Unicode `str.lower`. */
  function HeaderKey(lower: string -> string): string -> string {
    c => Strip(lower(c))
  }

  /** `any(pat in k for pat in colnames)`. */
  function ContainsAny(patterns: seq<string>): string -> bool {
    k => exists p :: p in patterns && Contains(k, p)
  }

  /** One item of the header dictionary: a normalised key and the header it maps to. */
  datatype Header = Header(key: string, column: string)

  predicate UniqueKeys(idx: seq<Header>) {
    forall i, j :: 0 <= i < j < |idx| ==> idx[i].key != idx[j].key
  }

  /** Position of `k` in the dictionary, if present. */
  function IndexOf(idx: seq<Header>, k: string): (r: Option<nat>)
    ensures r.Some? ==> r.value < |idx| && idx[r.value].key == k
    ensures r.None? ==> forall i :: 0 <= i < |idx| ==> idx[i].key != k
  {
    if idx == [] then None
    else if idx[0].key == k then Some(0)
    else match IndexOf(idx[1..], k)
      case None => None
      case Some(i) => Some(i + 1)
  }

  /** `d[k] = column`: overwrite in place when the key is present, else append. */
  function Insert(idx: seq<Header>, h: Header): seq<Header> {
    match IndexOf(idx, h.key)
    case Some(i) => idx[i := h]
    case None => idx + [h]
  }

  /** The last header whose key is `k`: the one a dict comprehension keeps. */
  function LastWithKey(columns: seq<string>, k: string, key: string -> string): (r: Option<string>)
    ensures r.Some? ==> r.value in columns && key(r.value) == k
    ensures r.None? ==> forall c :: c in columns ==> key(c) != k
  {
    if columns == [] then None
    else if key(columns[|columns| - 1]) == k then Some(columns[|columns| - 1])
    else
      var r := LastWithKey(columns[..|columns| - 1], k, key);
      assert forall c :: c in columns ==> c in columns[..|columns| - 1] || c == columns[|columns| - 1];
      r
  }

  /**
   * The dictionary built from the headers, in insertion order: each header
   * is inserted in turn, so a key sits where it first occurs and holds the
   * last header with that key.
   */
  function HeaderIndex(columns: seq<string>, key: string -> string): seq<Header> {
    if columns == [] then []
    else
      var c := columns[|columns| - 1];
      Insert(HeaderIndex(columns[..|columns| - 1], key), Header(key(c), c))
  }

  /** The dictionary has one item per distinct key. */
  lemma {:induction false} HeaderIndexUnique(columns: seq<string>, key: string -> string)
    ensures UniqueKeys(HeaderIndex(columns, key))
  {
    if columns != [] {
      var n := |columns| - 1;
      var c := columns[n];
      var prev := HeaderIndex(columns[..n], key);
      var idx := HeaderIndex(columns, key);
      HeaderIndexUnique(columns[..n], key);
      assert idx == Insert(prev, Header(key(c), c));
      match IndexOf(prev, key(c))
      case Some(p) =>
        assert idx == prev[p := Header(key(c), c)];
      case None =>
        assert idx == prev + [Header(key(c), c)];
    }
  }

  /** Every header's key is in the dictionary. */
  lemma {:induction false} HeaderIndexHasKeys(columns: seq<string>, key: string -> string)
    ensures forall c :: c in columns ==> IndexOf(HeaderIndex(columns, key), key(c)).Some?
  {
    if columns != [] {
      var n := |columns| - 1;
      var init := columns[..n];
      var c := columns[n];
      var prev := HeaderIndex(init, key);
      var idx := HeaderIndex(columns, key);
      HeaderIndexHasKeys(init, key);
      assert idx == Insert(prev, Header(key(c), c));
      InsertKeys(prev, Header(key(c), c));
      assert columns == init + [c];
      forall d | d in columns
        ensures IndexOf(idx, key(d)).Some?
      {
        if d in init {
          assert idx[IndexOf(prev, key(d)).value].key == key(d);
        } else if IndexOf(prev, key(c)).Some? {
          assert idx[IndexOf(prev, key(c)).value].key == key(d);
        } else {
          assert idx[|prev|].key == key(d);
        }
      }
    }
  }

  lemma LastWithKeySnoc(init: seq<string>, c: string, k: string, key: string -> string)
    ensures LastWithKey(init + [c], k, key) == if key(c) == k then Some(c) else LastWithKey(init, k, key)
  {
    assert (init + [c])[..|init|] == init;
  }

  /** Each key of the dictionary maps to the last header that has it. */
  lemma {:induction false} HeaderIndexLast(columns: seq<string>, key: string -> string)
    ensures forall h :: h in HeaderIndex(columns, key) ==> LastWithKey(columns, h.key, key) == Some(h.column)
  {
    if columns != [] {
      var n := |columns| - 1;
      var init := columns[..n];
      var c := columns[n];
      var kc := key(c);
      var prev := HeaderIndex(init, key);
      var idx := HeaderIndex(columns, key);
      HeaderIndexLast(init, key);
      HeaderIndexUnique(init, key);
      assert idx == Insert(prev, Header(kc, c));
      assert columns == init + [c];
      forall h | h in idx
        ensures LastWithKey(columns, h.key, key) == Some(h.column)
      {
        var i :| 0 <= i < |idx| && idx[i] == h;
        LastWithKeySnoc(init, c, idx[i].key, key);
        var isNew := match IndexOf(prev, kc)
                     case Some(p) => i == p
                     case None => i == |prev|;
        InsertKeys(prev, Header(kc, c));
        if isNew {
          assert idx[i] == Header(kc, c);
        } else {
          assert i < |prev|;
          assert idx[i] == prev[i] && prev[i].key != kc;
          assert prev[i] in prev;
        }
      }
    }
  }

  /**
   * The dictionary has one item per distinct key, every header's key is in
   * it, and each key maps to the last header that has it.
   */
  lemma HeaderIndexProps(columns: seq<string>, key: string -> string)
    ensures var idx := HeaderIndex(columns, key);
            && UniqueKeys(idx)
            && (forall i :: 0 <= i < |idx| ==> LastWithKey(columns, idx[i].key, key) == Some(idx[i].column))
            && (forall c :: c in columns ==> IndexOf(idx, key(c)).Some?)
  {
    HeaderIndexUnique(columns, key);
    HeaderIndexHasKeys(columns, key);
    HeaderIndexLast(columns, key);
  }

  /** A key is in the dictionary exactly when some header has it, and maps to the last such header. */
  lemma HeaderIndexLookup(columns: seq<string>, k: string, key: string -> string)
    ensures var idx := HeaderIndex(columns, key);
            match IndexOf(idx, k)
            case Some(p) => LastWithKey(columns, k, key) == Some(idx[p].column)
            case None => LastWithKey(columns, k, key) == None
  {
    HeaderIndexProps(columns, key);
  }

  // ---------------------------------------------------------------------------
  // pick

  /** Position of the first fallback, in order, whose key is in the dictionary: the exact-match stage. */
  function FirstExact(idx: seq<Header>, fallbacks: seq<string>, key: string -> string): (r: Option<nat>)
    ensures r.Some? ==> r.value < |fallbacks| && IndexOf(idx, key(fallbacks[r.value])).Some?
                        && forall j :: 0 <= j < r.value ==> IndexOf(idx, key(fallbacks[j])).None?
    ensures r.None? ==> forall j :: 0 <= j < |fallbacks| ==> IndexOf(idx, key(fallbacks[j])).None?
  {
    if fallbacks == [] then None
    else if IndexOf(idx, key(fallbacks[0])).Some? then Some(0)
    else match FirstExact(idx, fallbacks[1..], key)
      case None => None
      case Some(j) => Some(j + 1)
  }

  /** Position of the first item, in dictionary order, whose key passes `matches`. */
  function FirstKeyMatch(idx: seq<Header>, matches: string -> bool): (r: Option<nat>)
    ensures r.Some? ==> r.value < |idx| && matches(idx[r.value].key)
                        && forall j :: 0 <= j < r.value ==> !matches(idx[j].key)
    ensures r.None? ==> forall j :: 0 <= j < |idx| ==> !matches(idx[j].key)
  {
    if idx == [] then None
    else if matches(idx[0].key) then Some(0)
    else match FirstKeyMatch(idx[1..], matches)
      case None => None
      case Some(j) => Some(j + 1)
  }

  /** What `pick(colnames, fallbacks)` returns for the dictionary `idx`. */
  function Picked(idx: seq<Header>, matches: string -> bool, fallbacks: seq<string>, key: string -> string): Option<string> {
    match FirstExact(idx, fallbacks, key)
    case Some(i) => Some(idx[IndexOf(idx, key(fallbacks[i])).value].column)
    case None =>
      match FirstKeyMatch(idx, matches)
      case Some(e) => Some(idx[e].column)
      case None => None
  }

  /**
   * `pick`: each fallback in turn as an exact key, then the first key, in
   * dictionary order, that contains one of the patterns (`matches`).
   */
  method Pick(idx: seq<Header>, matches: string -> bool, fallbacks: seq<string>, key: string -> string)
    returns (r: Option<string>)
    ensures r == Picked(idx, matches, fallbacks, key)
  {
    for i := 0 to |fallbacks|
      invariant forall k :: 0 <= k < i ==> IndexOf(idx, key(fallbacks[k])).None?
    {
      var pos := IndexOf(idx, key(fallbacks[i]));
      if pos.Some? {
        return Some(idx[pos.value].column);
      }
    }
    for j := 0 to |idx|
      invariant forall k :: 0 <= k < j ==> !matches(idx[k].key)
    {
      if matches(idx[j].key) {
        return Some(idx[j].column);
      }
    }
    return None;
  }

  // The same choice stated on the headers themselves, with no dictionary.

  /** Position of the first header whose key passes `matches`. */
  function FirstColumnMatch(columns: seq<string>, matches: string -> bool, key: string -> string): (r: Option<nat>)
    ensures r.Some? ==> r.value < |columns| && matches(key(columns[r.value]))
                        && forall j :: 0 <= j < r.value ==> !matches(key(columns[j]))
    ensures r.None? ==> forall j :: 0 <= j < |columns| ==> !matches(key(columns[j]))
  {
    if columns == [] then None
    else if matches(key(columns[0])) then Some(0)
    else match FirstColumnMatch(columns[1..], matches, key)
      case None => None
      case Some(j) => Some(j + 1)
  }

  /** The first fallback that some header equals after normalisation, resolved to the last such header. */
  function FirstFallbackHit(columns: seq<string>, fallbacks: seq<string>, key: string -> string): Option<string> {
    if fallbacks == [] then None
    else
      var hit := LastWithKey(columns, key(fallbacks[0]), key);
      if hit.Some? then hit else FirstFallbackHit(columns, fallbacks[1..], key)
  }

  /**
   * Reference statement of `pick` over the header list: an exact match of a
   * fallback (earliest fallback first) wins over any substring match; else the
   * first header in column order whose key contains a pattern; of several
   * headers sharing a key, the last one is returned.
   */
  function ReferencePick(columns: seq<string>, matches: string -> bool, fallbacks: seq<string>, key: string -> string): Option<string> {
    var exact := FirstFallbackHit(columns, fallbacks, key);
    if exact.Some? then exact
    else match FirstColumnMatch(columns, matches, key)
      case Some(f) => LastWithKey(columns, key(columns[f]), key)
      case None => None
  }

  lemma {:induction false} FirstExactFromColumns(columns: seq<string>, fallbacks: seq<string>, key: string -> string)
    ensures var idx := HeaderIndex(columns, key);
            FirstFallbackHit(columns, fallbacks, key) ==
              match FirstExact(idx, fallbacks, key)
              case Some(i) => Some(idx[IndexOf(idx, key(fallbacks[i])).value].column)
              case None => None
  {
    if fallbacks != [] {
      HeaderIndexLookup(columns, key(fallbacks[0]), key);
      FirstExactFromColumns(columns, fallbacks[1..], key);
    }
  }

  lemma {:induction false} FirstColumnMatchSnoc(init: seq<string>, c: string, matches: string -> bool, key: string -> string)
    ensures FirstColumnMatch(init + [c], matches, key) ==
              if FirstColumnMatch(init, matches, key).Some? then FirstColumnMatch(init, matches, key)
              else if matches(key(c)) then Some(|init|)
              else None
  {
    if init != [] {
      assert (init + [c])[1..] == init[1..] + [c];
      assert (init + [c])[0] == init[0];
      FirstColumnMatchSnoc(init[1..], c, matches, key);
    }
  }

  /** Inserting rewrites one item in place or appends one: the keys already there stay put. */
  lemma InsertKeys(prev: seq<Header>, h: Header)
    ensures var idx := Insert(prev, h);
            && (forall i :: 0 <= i < |prev| ==> idx[i].key == prev[i].key)
            && (IndexOf(prev, h.key).Some? ==> |idx| == |prev|)
            && (IndexOf(prev, h.key).None? ==> |idx| == |prev| + 1 && idx[|prev|].key == h.key)
  {
  }

  /** The first match in a dictionary whose keys extend those of `prev`. */
  lemma FirstKeyMatchExtend(prev: seq<Header>, idx: seq<Header>, matches: string -> bool)
    requires |prev| <= |idx| <= |prev| + 1
    requires forall i :: 0 <= i < |prev| ==> idx[i].key == prev[i].key
    ensures FirstKeyMatch(prev, matches).Some? ==> FirstKeyMatch(idx, matches) == FirstKeyMatch(prev, matches)
    ensures FirstKeyMatch(prev, matches).None? && |idx| == |prev| ==> FirstKeyMatch(idx, matches).None?
    ensures FirstKeyMatch(prev, matches).None? && |idx| == |prev| + 1 ==>
              FirstKeyMatch(idx, matches) == if matches(idx[|prev|].key) then Some(|prev|) else None
  {
    if FirstKeyMatch(prev, matches).Some? {
      assert matches(idx[FirstKeyMatch(prev, matches).value].key);
    }
  }

  /** The dictionary's first matching key is the key of the first matching header. */
  lemma {:induction false} FirstKeyMatchFromColumns(columns: seq<string>, matches: string -> bool, key: string -> string)
    ensures var idx := HeaderIndex(columns, key);
            match FirstColumnMatch(columns, matches, key)
            case None => FirstKeyMatch(idx, matches).None?
            case Some(f) => FirstKeyMatch(idx, matches).Some?
                            && idx[FirstKeyMatch(idx, matches).value].key == key(columns[f])
  {
    if columns == [] {
      return;
    }
    var n := |columns| - 1;
    var init := columns[..n];
    var c := columns[n];
    var kc := key(c);
    var prev := HeaderIndex(init, key);
    var idx := HeaderIndex(columns, key);
    assert idx == Insert(prev, Header(kc, c));
    assert columns == init + [c];
    FirstKeyMatchFromColumns(init, matches, key);
    FirstColumnMatchSnoc(init, c, matches, key);
    InsertKeys(prev, Header(kc, c));
    FirstKeyMatchExtend(prev, idx, matches);
    match FirstColumnMatch(init, matches, key)
    case Some(f) =>
      assert columns[f] == init[f];
    case None =>
      if IndexOf(prev, kc).Some? {
        // kc is an earlier key, and no earlier key matches.
        assert prev[IndexOf(prev, kc).value].key == kc;
      }
  }

  /** `pick` over the dictionary agrees with the reference statement over the headers. */
  lemma PickMatchesReference(columns: seq<string>, matches: string -> bool, fallbacks: seq<string>, key: string -> string)
    ensures Picked(HeaderIndex(columns, key), matches, fallbacks, key) == ReferencePick(columns, matches, fallbacks, key)
  {
    var idx := HeaderIndex(columns, key);
    FirstExactFromColumns(columns, fallbacks, key);
    FirstKeyMatchFromColumns(columns, matches, key);
    if FirstExact(idx, fallbacks, key).None? {
      match FirstColumnMatch(columns, matches, key)
      case Some(f) =>
        var e := FirstKeyMatch(idx, matches).value;
        HeaderIndexProps(columns, key);
        HeaderIndexLookup(columns, key(columns[f]), key);
        var p := IndexOf(idx, key(columns[f])).value;
        assert idx[p].key == idx[e].key;
        assert p == e;
      case None =>
    }
  }

  /** Whatever `pick` returns is one of the table's headers. */
  lemma PickedIsHeader(columns: seq<string>, matches: string -> bool, fallbacks: seq<string>, key: string -> string)
    ensures var r := Picked(HeaderIndex(columns, key), matches, fallbacks, key);
            r.Some? ==> r.value in columns
  {
    var idx := HeaderIndex(columns, key);
    HeaderIndexProps(columns, key);
    match FirstExact(idx, fallbacks, key)
    case Some(i) =>
      var p := IndexOf(idx, key(fallbacks[i])).value;
      assert LastWithKey(columns, idx[p].key, key) == Some(idx[p].column);
    case None =>
      var e := FirstKeyMatch(idx, matches);
      if e.Some? {
        assert LastWithKey(columns, idx[e.value].key, key) == Some(idx[e.value].column);
      }
  }

  // ---------------------------------------------------------------------------
  // Row filters

  /** A row the quality filter removes: a blank name or a form-filling placeholder. */
  predicate IsJunk(nazwa: string, lower: string -> string) {
    Strip(nazwa) == "" || Contains(lower(nazwa), "wypełnienie formularza")
  }

  /** `out_df[~mask_bad]`: the rows that are not junk, in their order. */
  function DropJunk(rows: seq<InputRow>, lower: string -> string): (r: seq<InputRow>)
    ensures |r| <= |rows|
    ensures forall x :: x in r <==> x in rows && !IsJunk(x.nazwa, lower)
  {
    if rows == [] then []
    else (if IsJunk(rows[0].nazwa, lower) then [] else [rows[0]]) + DropJunk(rows[1..], lower)
  }

  /** Filtering distributes over concatenation, so the kept rows keep their relative order. */
  lemma {:induction false} DropJunkConcat(a: seq<InputRow>, b: seq<InputRow>, lower: string -> string)
    ensures DropJunk(a + b, lower) == DropJunk(a, lower) + DropJunk(b, lower)
  {
    if a != [] {
      assert (a + b)[1..] == a[1..] + b;
      DropJunkConcat(a[1..], b, lower);
    } else {
      assert a + b == b;
    }
  }

  predicate NoDuplicates(s: seq<InputRow>) {
    forall i, j :: 0 <= i < j < |s| ==> s[i] != s[j]
  }

  /** `drop_duplicates()` keeping first occurrences, skipping everything already in `seen`. */
  function KeepFirstFrom(s: seq<InputRow>, seen: set<InputRow>): (r: seq<InputRow>)
    ensures NoDuplicates(r)
    ensures forall x :: x in r <==> x in s && x !in seen
  {
    if s == [] then []
    else if s[0] in seen then KeepFirstFrom(s[1..], seen)
    else
      var rest := KeepFirstFrom(s[1..], seen + {s[0]});
      assert s[0] !in rest;
      [s[0]] + rest
  }

  function KeepFirst(s: seq<InputRow>): seq<InputRow> {
    KeepFirstFrom(s, {})
  }

  lemma {:induction false} KeepFirstFromSnoc(s: seq<InputRow>, x: InputRow, seen: set<InputRow>)
    ensures KeepFirstFrom(s + [x], seen) ==
              KeepFirstFrom(s, seen) + (if x in s || x in seen then [] else [x])
  {
    if s == [] {
      assert [x][1..] == [];
    } else {
      var t := s[1..];
      assert (s + [x])[1..] == t + [x];
      assert (s + [x])[0] == s[0];
      assert x in s <==> x == s[0] || x in t;
      if s[0] in seen {
        KeepFirstFromSnoc(t, x, seen);
        assert KeepFirstFrom(s + [x], seen) == KeepFirstFrom(t + [x], seen);
      } else {
        KeepFirstFromSnoc(t, x, seen + {s[0]});
        assert KeepFirstFrom(s + [x], seen) == [s[0]] + KeepFirstFrom(t + [x], seen + {s[0]});
        assert KeepFirstFrom(s, seen) == [s[0]] + KeepFirstFrom(t, seen + {s[0]});
      }
    }
  }

  /**
   * Keep-first de-duplication, characterised one row at a time: a new row is
   * appended exactly when no earlier row equals it, so the survivors are the
   * first occurrences, in input order.
   */
  lemma KeepFirstSnoc(s: seq<InputRow>, x: InputRow)
    ensures KeepFirst(s + [x]) == KeepFirst(s) + (if x in s then [] else [x])
  {
    KeepFirstFromSnoc(s, x, {});
  }

  /** Without duplicates there is nothing to drop. */
  lemma {:induction false} KeepFirstNoDuplicates(s: seq<InputRow>)
    requires NoDuplicates(s)
    ensures KeepFirst(s) == s
  {
    if s != [] {
      var init := s[..|s| - 1];
      assert s == init + [s[|s| - 1]];
      KeepFirstNoDuplicates(init);
      KeepFirstSnoc(init, s[|s| - 1]);
    }
  }

  /** De-duplicating twice is de-duplicating once. */
  lemma KeepFirstIdempotent(s: seq<InputRow>)
    ensures KeepFirst(KeepFirst(s)) == KeepFirst(s)
  {
    KeepFirstNoDuplicates(KeepFirst(s));
  }

  // ---------------------------------------------------------------------------
  // The script

  const NameColumnPatterns: seq<string> := ["account name", "nazwa", "company", "firma"]
  const NameColumnFallbacks: seq<string> := ["Account Name", "Nazwa"]
  const NipColumnPatterns: seq<string> := ["nip", "vat"]
  const NipColumnFallbacks: seq<string> := ["NIP*", "NIP"]

  /** Every row has a cell for every header. */
  predicate WellFormed(columns: seq<string>, table: seq<map<string, string>>) {
    forall i, c :: 0 <= i < |table| && c in columns ==> c in table[i]
  }

  /** The two-column frame before filtering: trimmed names beside normalised NIPs. */
  function Columnize(table: seq<map<string, string>>, nameCol: string, nipCol: Option<string>): (r: seq<InputRow>)
    requires forall i :: 0 <= i < |table| ==> nameCol in table[i]
    requires nipCol.Some? ==> forall i :: 0 <= i < |table| ==> nipCol.value in table[i]
    ensures |r| == |table|
    ensures forall i :: 0 <= i < |r| ==> r[i].nazwa == Strip(table[i][nameCol])
    ensures forall i :: 0 <= i < |r| ==> r[i].nip == (if nipCol.Some? then NormNip(table[i][nipCol.value]) else "")
  {
    seq(|table|, i requires 0 <= i < |table| =>
      InputRow(Strip(table[i][nameCol]), if nipCol.Some? then NormNip(table[i][nipCol.value]) else ""))
  }

  /**
   * What prep_input.py produces for a table: the header named by `pick` for
   * the company name (a table without one is abandoned), the NIP column if
   * one is found, then the junk filter and keep-first de-duplication.
   */
  function Prepare(columns: seq<string>, table: seq<map<string, string>>, lower: string -> string): Prepared
    requires WellFormed(columns, table)
  {
    var idx := HeaderIndex(columns, HeaderKey(lower));
    var nameCol := Picked(idx, ContainsAny(NameColumnPatterns), NameColumnFallbacks, HeaderKey(lower));
    var nipCol := Picked(idx, ContainsAny(NipColumnPatterns), NipColumnFallbacks, HeaderKey(lower));
    if nameCol.None? || nameCol.value == "" then Aborted(NoNameColumn)
    else
      PickedIsHeader(columns, ContainsAny(NameColumnPatterns), NameColumnFallbacks, HeaderKey(lower));
      PickedIsHeader(columns, ContainsAny(NipColumnPatterns), NipColumnFallbacks, HeaderKey(lower));
      var nip := if nipCol.Some? && nipCol.value != "" then nipCol else None;
      Prepared(KeepFirst(DropJunk(Columnize(table, nameCol.value, nip), lower)))
  }

  /** Every row of the frame has a trimmed name and a NIP that is "" or ten digits. */
  lemma ColumnizeRows(table: seq<map<string, string>>, nameCol: string, nipCol: Option<string>)
    requires forall i :: 0 <= i < |table| ==> nameCol in table[i]
    requires nipCol.Some? ==> forall i :: 0 <= i < |table| ==> nipCol.value in table[i]
    ensures forall r :: r in Columnize(table, nameCol, nipCol) ==>
              r.nazwa == Strip(r.nazwa) && (r.nip == "" || (|r.nip| == 10 && AllDecimal(r.nip)))
  {
    var frame := Columnize(table, nameCol, nipCol);
    forall r | r in frame
      ensures r.nazwa == Strip(r.nazwa)
    {
      var i :| 0 <= i < |frame| && frame[i] == r;
      StripIdempotent(table[i][nameCol]);
    }
  }

  /** The rows that survive both filters are rows of the frame that are not junk, each once. */
  lemma FilteredRows(frame: seq<InputRow>, lower: string -> string)
    ensures var rows := KeepFirst(DropJunk(frame, lower));
            NoDuplicates(rows) && forall r :: r in rows ==> r in frame && !IsJunk(r.nazwa, lower)
  {
  }

  /**
   * A prepared table holds no (name, NIP) pair twice, and every row has a
   * trimmed, non-blank, non-junk name and a NIP that is "" or ten digits.
   */
  lemma PrepareProps(columns: seq<string>, table: seq<map<string, string>>, lower: string -> string)
    requires WellFormed(columns, table)
    ensures var res := Prepare(columns, table, lower);
            res.Prepared? ==>
              && NoDuplicates(res.rows)
              && forall r :: r in res.rows ==>
                   && Strip(r.nazwa) != ""
                   && !Contains(lower(r.nazwa), "wypełnienie formularza")
                   && r.nazwa == Strip(r.nazwa)
                   && (r.nip == "" || (|r.nip| == 10 && AllDecimal(r.nip)))
  {
    var res := Prepare(columns, table, lower);
    if res.Prepared? {
      var idx := HeaderIndex(columns, HeaderKey(lower));
      var nameCol := Picked(idx, ContainsAny(NameColumnPatterns), NameColumnFallbacks, HeaderKey(lower));
      var nipCol := Picked(idx, ContainsAny(NipColumnPatterns), NipColumnFallbacks, HeaderKey(lower));
      PickedIsHeader(columns, ContainsAny(NameColumnPatterns), NameColumnFallbacks, HeaderKey(lower));
      PickedIsHeader(columns, ContainsAny(NipColumnPatterns), NipColumnFallbacks, HeaderKey(lower));
      var nip := if nipCol.Some? && nipCol.value != "" then nipCol else None;
      var frame := Columnize(table, nameCol.value, nip);
      assert res.rows == KeepFirst(DropJunk(frame, lower));
      FilteredRows(frame, lower);
      ColumnizeRows(table, nameCol.value, nip);
    }
  }

  /**
   * The whole of prep_input.py between reading and writing the file: the
   * table is abandoned exactly when no name column is found, and otherwise
   * the rows are those `Prepare` describes.
   */
  method PrepareInput(columns: seq<string>, table: seq<map<string, string>>, lower: string -> string)
    returns (res: Prepared)
    requires WellFormed(columns, table)
    ensures res == Prepare(columns, table, lower)
    ensures var nameCol := Picked(HeaderIndex(columns, HeaderKey(lower)), ContainsAny(NameColumnPatterns), NameColumnFallbacks, HeaderKey(lower));
            res.Aborted? <==> nameCol.None? || nameCol.value == ""
  {
    var idx := HeaderIndex(columns, HeaderKey(lower));
    var nameCol := Pick(idx, ContainsAny(NameColumnPatterns), NameColumnFallbacks, HeaderKey(lower));
    var nipCol := Pick(idx, ContainsAny(NipColumnPatterns), NipColumnFallbacks, HeaderKey(lower));
    if nameCol.None? || nameCol.value == "" {
      return Aborted(NoNameColumn);
    }
    PickedIsHeader(columns, ContainsAny(NameColumnPatterns), NameColumnFallbacks, HeaderKey(lower));
    PickedIsHeader(columns, ContainsAny(NipColumnPatterns), NipColumnFallbacks, HeaderKey(lower));
    var nip := if nipCol.Some? && nipCol.value != "" then nipCol else None;
    var frame := Columnize(table, nameCol.value, nip);
    var kept := DropJunk(frame, lower);
    res := Prepared(KeepFirst(kept));
  }
}
