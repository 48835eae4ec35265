/**
 * adapters/financials_pdf.py: pull the net revenue, the average employment
 * and the financial year out of the text of a financial statement.
 *
 * Opening the PDF is the abstract `open` (pdfplumber), which yields the
 * document's pages, each of them text, no text, or an extraction error. Each
 * label pattern is an abstract matcher giving the first capture group of its
 * leftmost case-insensitive match. `_first_number`, which cleans the revenue
 * capture, is modelled character by character.
 */
module FinancialsPdf {
  import opened Common
  import opened Text

  // ---------------------------------------------------------------------------
  // _first_number

  const Nbsp: char := '\U{A0}'

  /** `s.replace(" ", " ")` */
  function NbspToSpace(s: string): (t: string)
    ensures |t| == |s|
    ensures forall k :: 0 <= k < |s| ==> t[k] == (if s[k] == Nbsp then ' ' else s[k])
  {
    seq(|s|, k requires 0 <= k < |s| => if s[k] == Nbsp then ' ' else s[k])
  }

  /** `s.replace(" ", "").replace(" ", "").replace(",", ".")` */
  function Compact(s: string): (x: string)
    ensures |x| <= |s|
    ensures forall k :: 0 <= k < |x| ==> x[k] != ' ' && x[k] != Nbsp && x[k] != ','
  {
    if s == [] then []
    else
      var c := s[0];
      (if c == ' ' || c == Nbsp then [] else if c == ',' then ['.'] else [c]) + Compact(s[1..])
  }

  /** Compacting drops spaces and turns commas into dots; every other character stays. */
  lemma {:induction false} CompactKeeps(s: string)
    ensures var x := Compact(s);
            && (forall k :: 0 <= k < |x| ==> x[k] == '.' || x[k] in s)
            && (forall k :: 0 <= k < |s| && s[k] != ' ' && s[k] != Nbsp && s[k] != ',' ==> s[k] in x)
  {
    if s != [] {
      var c := s[0];
      var h: string := if c == ' ' || c == Nbsp then [] else if c == ',' then ['.'] else [c];
      var t := Compact(s[1..]);
      CompactKeeps(s[1..]);
      assert Compact(s) == h + t;
      forall k | 0 <= k < |h + t|
        ensures (h + t)[k] == '.' || (h + t)[k] in s
      {
        if k < |h| {
          assert (h + t)[k] == h[k];
          assert h[k] == '.' || h[k] == s[0];
        } else {
          var x := t[k - |h|];
          assert (h + t)[k] == x;
          assert x == '.' || x in s[1..];
          if x != '.' {
            var j :| 0 <= j < |s[1..]| && s[1..][j] == x;
            assert s[j + 1] == x;
          }
        }
      }
      forall k | 0 <= k < |s| && s[k] != ' ' && s[k] != Nbsp && s[k] != ','
        ensures s[k] in h + t
      {
        if k == 0 {
          assert (h + t)[0] == c;
        } else {
          assert s[k] == s[1..][k - 1];
        }
      }
    }
  }

  /** Position of the first ASCII digit. */
  function FirstDigit(t: string): (r: Option<nat>)
    ensures r.Some? ==> r.value < |t| && IsDigit(t[r.value]) && forall k :: 0 <= k < r.value ==> !IsDigit(t[k])
    ensures r.None? ==> forall k :: 0 <= k < |t| ==> !IsDigit(t[k])
  {
    if t == [] then None
    else if IsDigit(t[0]) then Some(0)
    else match FirstDigit(t[1..])
      case None => None
      case Some(j) => Some(j + 1)
  }

  /** End of the run of digits starting at `i`: greedy `[0-9]*`. */
  function DigitsEnd(t: string, i: nat): (j: nat)
    requires i <= |t|
    ensures i <= j <= |t|
    ensures forall k :: i <= k < j ==> IsDigit(t[k])
    ensures j < |t| ==> !IsDigit(t[j])
    decreases |t| - i
  {
    if i < |t| && IsDigit(t[i]) then DigitsEnd(t, i + 1) else i
  }

  /** A dot and three digits at `i`: one round of `(?:\.[0-9]{3})`. */
  predicate DotGroupAt(t: string, i: nat) {
    i + 4 <= |t| && t[i] == '.' && IsDigit(t[i + 1]) && IsDigit(t[i + 2]) && IsDigit(t[i + 3])
  }

  /** End of greedy `(?:\.[0-9]{3})*` from `i`. */
  function DotGroupsEnd(t: string, i: nat): (j: nat)
    requires i <= |t|
    ensures i <= j <= |t|
    ensures !DotGroupAt(t, j)
    decreases |t| - i
  {
    if DotGroupAt(t, i) then DotGroupsEnd(t, i + 4) else i
  }

  /** End of greedy `(?:,[0-9]+)?` from `i`. */
  function CommaPartEnd(t: string, i: nat): (j: nat)
    requires i <= |t|
    ensures i <= j <= |t|
  {
    if i + 1 < |t| && t[i] == ',' && IsDigit(t[i + 1]) then DigitsEnd(t, i + 1) else i
  }

  /**
   * `re.search(r"[0-9]+(?:\.[0-9]{3})*(?:,[0-9]+)?|[0-9]+(?:\.[0-9]+)?", t)`.
   * Both alternatives need a digit to start and the first one succeeds on
   * any digit, so the match starts at the first digit and the second
   * alternative is never taken.
   */
  function NumberMatch(t: string): (r: Option<string>)
    ensures r.None? <==> forall k :: 0 <= k < |t| ==> !IsDigit(t[k])
  {
    match FirstDigit(t)
    case None => None
    case Some(i) => Some(t[i..CommaPartEnd(t, DotGroupsEnd(t, DigitsEnd(t, i)))])
  }

  /** A number as the pattern reads it: digits first and last, and only digits, dots and commas. */
  predicate IsNumeral(m: string) {
    && m != []
    && IsDigit(m[0]) && IsDigit(m[|m| - 1])
    && forall k :: 0 <= k < |m| ==> IsDigit(m[k]) || m[k] == '.' || m[k] == ','
  }

  lemma DotGroupsNumeral(t: string, i: nat, j: nat)
    requires i < j <= |t| && IsDigit(t[j - 1])
    requires forall k :: i <= k < j ==> IsDigit(t[k]) || t[k] == '.' || t[k] == ','
    ensures var e := DotGroupsEnd(t, j);
            IsDigit(t[e - 1]) && forall k :: i <= k < e ==> IsDigit(t[k]) || t[k] == '.' || t[k] == ','
    decreases |t| - j
  {
    if DotGroupAt(t, j) {
      DotGroupsNumeral(t, i, j + 4);
    }
  }

  lemma CommaPartNumeral(t: string, i: nat, g: nat)
    requires i < g <= |t| && IsDigit(t[g - 1])
    requires forall k :: i <= k < g ==> IsDigit(t[k]) || t[k] == '.' || t[k] == ','
    ensures var e := CommaPartEnd(t, g);
            IsDigit(t[e - 1]) && forall k :: i <= k < e ==> IsDigit(t[k]) || t[k] == '.' || t[k] == ','
  {
  }

  /** The match is a contiguous piece of `t` that reads as a numeral. */
  lemma NumberMatchShape(t: string)
    ensures var r := NumberMatch(t);
            r.Some? ==> IsNumeral(r.value) && exists i, j :: 0 <= i <= j <= |t| && r.value == t[i..j]
  {
    match FirstDigit(t)
    case None =>
    case Some(i) =>
      var d := DigitsEnd(t, i + 1);
      assert DigitsEnd(t, i) == d;
      DotGroupsNumeral(t, i, d);
      var g := DotGroupsEnd(t, d);
      CommaPartNumeral(t, i, g);
      var e := CommaPartEnd(t, g);
      var m := t[i..e];
      assert forall k :: 0 <= k < |m| ==> m[k] == t[i + k];
  }

  /**
   * `_first_number` as written: None for None or "", the input itself when it
   * holds no digit, else the leftmost numeral of the input with no-break
   * spaces turned into spaces. The compacted string is built but not used.
   */
  function FirstNumberAsWritten(s: Option<string>): (r: Option<string>)
    ensures s == None || s == Some("") ==> r == None
    ensures s.Some? && s.value != "" && (forall k :: 0 <= k < |s.value| ==> !IsDigit(s.value[k])) ==> r == s
    ensures s.Some? && (exists k :: 0 <= k < |s.value| && IsDigit(s.value[k])) ==> r == NumberMatch(NbspToSpace(s.value))
  {
    match s
    case None => None
    case Some(v) =>
      if v == "" then None
      else match NumberMatch(NbspToSpace(v))
        case Some(m) => Some(m)
        case None => Some(v)
  }

  /** With the search on the uncompacted text, the first space cuts a number written with spaced thousands short. */
  lemma FirstNumberAsWrittenCutsAtSpace()
    ensures FirstNumberAsWritten(Some("1 234 567")) == Some("1")
  {
    var t := NbspToSpace("1 234 567");
    assert t == "1 234 567";
    assert FirstDigit(t) == Some(0);
    assert DigitsEnd(t, 1) == 1;
    assert DigitsEnd(t, 0) == 1;
    assert !DotGroupAt(t, 1);
    assert DotGroupsEnd(t, 1) == 1;
    assert CommaPartEnd(t, 1) == 1;
    assert t[0..1] == "1";
  }

  /**
   * `_first_number` searching the compacted string it prepares: spaces and
   * no-break spaces dropped and commas read as dots. The rest of the model
   * uses this definition.
   */
  function FirstNumber(s: Option<string>): (r: Option<string>)
    ensures s == None || s == Some("") ==> r == None
    ensures s.Some? && s.value != "" && (forall k :: 0 <= k < |s.value| ==> !IsDigit(s.value[k])) ==> r == s
    ensures s.Some? && (exists k :: 0 <= k < |s.value| && IsDigit(s.value[k])) ==> r == NumberMatch(Compact(s.value))
  {
    match s
    case None => None
    case Some(v) =>
      if v == "" then None
      else
        CompactKeeps(v);
        match NumberMatch(Compact(v))
        case Some(m) => Some(m)
        case None => Some(v)
  }

  // The first alternative, `[0-9]+(?:\.[0-9]{3})*(?:,[0-9]+)?`, as a
  // language over the positions of a text.

  /** `t[x..y]` is one or more digits: `[0-9]+`. */
  predicate DigitSpan(t: string, x: nat, y: nat) {
    x < y <= |t| && forall k :: x <= k < y ==> IsDigit(t[k])
  }

  /** `t[x..y]` is zero or more rounds of `\.[0-9]{3}`. */
  predicate DotGroupsSpan(t: string, x: nat, y: nat)
    decreases y - x
  {
    x == y || (x + 4 <= y && DotGroupAt(t, x) && DotGroupsSpan(t, x + 4, y))
  }

  /** `t[x..y]` is empty or a comma and one or more digits: `(?:,[0-9]+)?`. */
  predicate CommaSpan(t: string, x: nat, y: nat) {
    x == y || (x + 2 <= y <= |t| && t[x] == ',' && forall k :: x < k < y ==> IsDigit(t[k]))
  }

  /** `t[i..e]` matches the first alternative. */
  ghost predicate NumeralSpan(t: string, i: nat, e: nat) {
    exists a: nat, b: nat :: a <= b <= e && DigitSpan(t, i, a) && DotGroupsSpan(t, a, b) && CommaSpan(t, b, e)
  }

  /** Greedy `(?:\.[0-9]{3})*` stops after whole rounds. */
  lemma {:induction false} DotGroupsEndSpan(t: string, x: nat)
    requires x <= |t|
    ensures DotGroupsSpan(t, x, DotGroupsEnd(t, x))
    decreases |t| - x
  {
    if DotGroupAt(t, x) {
      DotGroupsEndSpan(t, x + 4);
    }
  }

  /** Every run of rounds ends within the greedy one, and a shorter run is followed by another round. */
  lemma {:induction false} DotGroupsSpanWithinEnd(t: string, x: nat, b: nat)
    requires x <= |t| && DotGroupsSpan(t, x, b)
    ensures b <= DotGroupsEnd(t, x)
    ensures b < DotGroupsEnd(t, x) ==> DotGroupAt(t, b)
    decreases |t| - x
  {
    if x < b {
      DotGroupsSpanWithinEnd(t, x + 4, b);
    }
  }

  /** No match of the first alternative from `i` reaches past the greedy one. */
  lemma NumeralSpanWithinGreedy(t: string, i: nat, a: nat, b: nat, e: nat)
    requires a <= b <= e && DigitSpan(t, i, a) && DotGroupsSpan(t, a, b) && CommaSpan(t, b, e)
    ensures e <= CommaPartEnd(t, DotGroupsEnd(t, DigitsEnd(t, i)))
  {
    var d := DigitsEnd(t, i);
    if a == d {
      DotGroupsSpanWithinEnd(t, a, b);
    }
  }

  /** A match of the first alternative starts with a digit. */
  lemma NumeralSpanStartsWithDigit(t: string, x: nat, y: nat)
    requires NumeralSpan(t, x, y)
    ensures x < |t| && IsDigit(t[x])
  {
    var a: nat, b: nat :| a <= b <= y && DigitSpan(t, x, a) && DotGroupsSpan(t, a, b) && CommaSpan(t, b, y);
  }

  /** From a digit, the greedy stages give a match of the first alternative that no other match outreaches. */
  lemma GreedyIsLongest(t: string, i: nat)
    requires i < |t| && IsDigit(t[i])
    ensures var e := CommaPartEnd(t, DotGroupsEnd(t, DigitsEnd(t, i)));
            && i < e && NumeralSpan(t, i, e)
            && forall e' :: i <= e' <= |t| && NumeralSpan(t, i, e') ==> e' <= e
  {
    var d := DigitsEnd(t, i);
    var g := DotGroupsEnd(t, d);
    var e := CommaPartEnd(t, g);
    DotGroupsEndSpan(t, d);
    assert CommaSpan(t, g, e);
    assert DigitSpan(t, i, d);
    forall e' | i <= e' <= |t| && NumeralSpan(t, i, e')
      ensures e' <= e
    {
      var a: nat, b: nat :| a <= b <= e' && DigitSpan(t, i, a) && DotGroupsSpan(t, a, b) && CommaSpan(t, b, e');
      NumeralSpanWithinGreedy(t, i, a, b, e');
    }
  }

  /**
   * What the number pattern finds: nothing exactly when there is no digit;
   * otherwise no match starts before the first digit, and the one found
   * there is the longest match of the first alternative. (The first
   * alternative matches from any digit, so the second is never tried.)
   */
  lemma NumberMatchLeftmostLongest(t: string)
    ensures NumberMatch(t).None? <==> FirstDigit(t).None?
    ensures forall x: nat, y: nat :: x <= y <= |t| && NumeralSpan(t, x, y) ==>
              FirstDigit(t).Some? && FirstDigit(t).value <= x
    ensures FirstDigit(t).Some? ==>
              var i := FirstDigit(t).value;
              exists e: nat :: i < e <= |t| && NumberMatch(t) == Some(t[i..e]) && NumeralSpan(t, i, e)
                               && forall e': nat :: i <= e' <= |t| && NumeralSpan(t, i, e') ==> e' <= e
  {
    forall x: nat, y: nat | x <= y <= |t| && NumeralSpan(t, x, y)
      ensures FirstDigit(t).Some? && FirstDigit(t).value <= x
    {
      NumeralSpanStartsWithDigit(t, x, y);
    }
    if FirstDigit(t).Some? {
      var i := FirstDigit(t).value;
      GreedyIsLongest(t, i);
      var e := CommaPartEnd(t, DotGroupsEnd(t, DigitsEnd(t, i)));
      assert NumberMatch(t) == Some(t[i..e]);
    }
  }

  /** Compacting keeps the digits, in order, and nothing is removed from them. */
  lemma {:induction false} CompactDigits(s: string)
    ensures Digits(Compact(s)) == Digits(s)
  {
    if s != [] {
      CompactDigits(s[1..]);
      var c := s[0];
      var head := if c == ' ' || c == Nbsp then [] else if c == ',' then ['.'] else [c];
      DigitsConcat(head, Compact(s[1..]));
    }
  }

  /** A number written as digit groups separated by spaces or no-break spaces. */
  predicate SpacedDigits(s: string) {
    s != [] && IsDigit(s[0]) && forall k :: 0 <= k < |s| ==> IsDigit(s[k]) || s[k] == ' ' || s[k] == Nbsp
  }

  /** Compacting a spaced number leaves exactly its digits. */
  lemma {:induction false} CompactSpaced(s: string)
    requires forall k :: 0 <= k < |s| ==> IsDigit(s[k]) || s[k] == ' ' || s[k] == Nbsp
    ensures Compact(s) == Digits(s)
    ensures AllDigits(Compact(s))
  {
    if s != [] {
      CompactSpaced(s[1..]);
    }
  }

  /** The whole of a run of digits is one numeral. */
  lemma NumberMatchOfDigits(t: string)
    requires t != [] && AllDigits(t)
    ensures NumberMatch(t) == Some(t)
  {
    assert FirstDigit(t) == Some(0);
    DigitsEndAll(t, 0);
    assert !DotGroupAt(t, |t|);
    assert t[0..|t|] == t;
  }

  lemma DigitsEndAll(t: string, i: nat)
    requires i <= |t| && AllDigits(t)
    ensures DigitsEnd(t, i) == |t|
    decreases |t| - i
  {
    if i < |t| {
      DigitsEndAll(t, i + 1);
    }
  }

  /** Spaced thousands are read as one number: "1 234 567" gives "1234567". */
  lemma FirstNumberJoinsSpacedThousands(s: string)
    requires SpacedDigits(s)
    ensures FirstNumber(Some(s)) == Some(Digits(s))
  {
    CompactSpaced(s);
    assert Digits(s) != [] by {
      assert s == [s[0]] + s[1..];
      DigitsConcat([s[0]], s[1..]);
    }
    NumberMatchOfDigits(Digits(s));
  }

  /**
   * Even searching the compacted text, a decimal part written with a comma
   * is lost: the comma has become a dot, and the first alternative, which
   * wins, takes a dot only before exactly three digits.
   */
  lemma FirstNumberDropsCommaDecimals()
    ensures FirstNumber(Some("1 234,56")) == Some("1234")
  {
    CompactCommaExample();
    NumberMatchDotExample();
    assert IsDigit("1 234,56"[0]);
  }

  lemma CompactCons(c: char, s: string)
    ensures Compact([c] + s) == (if c == ' ' || c == Nbsp then [] else if c == ',' then ['.'] else [c]) + Compact(s)
  {
    assert ([c] + s)[1..] == s;
  }

  lemma CompactCommaExample()
    ensures Compact("1 234,56") == "1234.56"
  {
    CompactCons('6', []);
    CompactCons('5', ['6']);
    CompactCons(',', ['5', '6']);
    CompactCons('4', [',', '5', '6']);
    CompactCons('3', ['4', ',', '5', '6']);
    CompactCons('2', ['3', '4', ',', '5', '6']);
    CompactCons(' ', ['2', '3', '4', ',', '5', '6']);
    CompactCons('1', [' ', '2', '3', '4', ',', '5', '6']);
  }

  lemma NumberMatchDotExample()
    ensures NumberMatch("1234.56") == Some("1234")
  {
    var x := "1234.56";
    assert FirstDigit(x) == Some(0);
    assert DigitsEnd(x, 4) == 4;
    assert DigitsEnd(x, 0) == 4;
    assert !DotGroupAt(x, 4);
    assert DotGroupsEnd(x, 4) == 4;
    assert CommaPartEnd(x, 4) == 4;
    assert x[0..4] == "1234";
  }

  // ---------------------------------------------------------------------------
  // Page text

  /** What `page.extract_text()` gives: text, None, or an exception. */
  datatype PageText = Extracted(text: Option<string>) | Failed

  /** The text a page adds: `"\n" + (t or "")`, or nothing when extraction raised. */
  function Piece(p: PageText): string {
    match p
    case Failed => ""
    case Extracted(t) => "\n" + (match t case None => "" case Some(s) => s)
  }

  /** `text_joined` after the given pages, in order. */
  function Joined(pages: seq<PageText>): string {
    if pages == [] then "" else Joined(pages[..|pages| - 1]) + Piece(pages[|pages| - 1])
  }

  /** The text of a run of pages is the text of its parts, in order. */
  lemma {:induction false} JoinedConcat(a: seq<PageText>, b: seq<PageText>)
    ensures Joined(a + b) == Joined(a) + Joined(b)
    decreases |b|
  {
    if b != [] {
      var n := |b| - 1;
      assert (a + b)[..|a + b| - 1] == a + b[..n];
      JoinedConcat(a, b[..n]);
    } else {
      assert a + b == a;
    }
  }

  /** A page whose extraction raised leaves no trace in the text. */
  lemma FailedPageSkipped(a: seq<PageText>, b: seq<PageText>)
    ensures Joined(a + [Failed] + b) == Joined(a + b)
  {
    var af := a + [Failed];
    assert af[..|af| - 1] == a;
    assert Joined(af) == Joined(a);
    assert af + b == a + [Failed] + b;
    JoinedConcat(af, b);
    JoinedConcat(a, b);
  }

  /** Each readable page opens with a line break, so the text is "" or starts with one. */
  lemma {:induction false} JoinedStartsWithNewline(pages: seq<PageText>)
    ensures Joined(pages) == "" || Joined(pages)[0] == '\n'
  {
    if pages != [] {
      JoinedStartsWithNewline(pages[..|pages| - 1]);
    }
  }

  /** `pdf.pages[:10]` */
  function FirstTen(pages: seq<PageText>): (r: seq<PageText>)
    ensures |r| <= 10 && |r| <= |pages| && r == pages[..|r|]
    ensures |r| == if |pages| < 10 then |pages| else 10
  {
    if |pages| <= 10 then pages else pages[..10]
  }

  /** Pages after the tenth never reach the text. */
  lemma LaterPagesIgnored(pages: seq<PageText>, more: seq<PageText>)
    requires |pages| >= 10
    ensures Joined(FirstTen(pages + more)) == Joined(FirstTen(pages))
  {
    assert (pages + more)[..10] == pages[..10];
  }

  /** The reading loop over the first ten pages. */
  method JoinPages(pages: seq<PageText>) returns (text: string)
    ensures text == Joined(FirstTen(pages))
  {
    var first := FirstTen(pages);
    text := "";
    for i := 0 to |first|
      invariant text == Joined(first[..i])
    {
      assert first[..i + 1][..i] == first[..i];
      text := text + Piece(first[i]);
    }
    assert first[..|first|] == first;
  }

  // ---------------------------------------------------------------------------
  // Pattern cascades

  /** A label pattern: the first capture group of its leftmost match in a text, if it matches. */
  type Matcher = string -> Option<string>

  /** The capture of the first pattern, in list order, that matches. */
  function Cascade(patterns: seq<Matcher>, text: string): (r: Option<string>)
    ensures r.Some? ==> exists i :: 0 <= i < |patterns| && patterns[i](text) == r
                          && forall j :: 0 <= j < i ==> patterns[j](text).None?
    ensures r.None? ==> forall j :: 0 <= j < |patterns| ==> patterns[j](text).None?
  {
    if patterns == [] then None
    else if patterns[0](text).Some? then patterns[0](text)
    else
      var r := Cascade(patterns[1..], text);
      assert forall j :: 1 <= j < |patterns| ==> patterns[j] == patterns[1..][j - 1];
      r
  }

  /** How many patterns a cascade consults: up to the first that matches, or all of them. */
  function Consulted(patterns: seq<Matcher>, text: string): (n: nat)
    ensures n <= |patterns|
    ensures forall j :: 0 <= j < n - 1 ==> patterns[j](text).None?
    ensures n < |patterns| ==> n > 0 && patterns[n - 1](text).Some?
  {
    if patterns == [] then 0
    else if patterns[0](text).Some? then 1
    else 1 + Consulted(patterns[1..], text)
  }

  /**
   * The loop with `break` over a pattern list. `tried` counts the patterns
   * consulted: a later pattern is tried only once every earlier one failed.
   */
  method RunCascade(patterns: seq<Matcher>, text: string) returns (found: Option<string>, tried: nat)
    ensures found == Cascade(patterns, text)
    ensures tried == Consulted(patterns, text)
  {
    found := None;
    tried := 0;
    for i := 0 to |patterns|
      invariant tried == i
      invariant forall j :: 0 <= j < i ==> patterns[j](text).None?
      invariant Cascade(patterns, text) == Cascade(patterns[i..], text)
      invariant Consulted(patterns, text) == i + Consulted(patterns[i..], text)
    {
      tried := tried + 1;
      var m := patterns[i](text);
      assert patterns[i..][1..] == patterns[i + 1..];
      if m.Some? {
        found := m;
        return;
      }
    }
  }

  /** `lo` to `hi` characters, each of them a digit in the sense of `digit`. */
  predicate DigitRun(v: string, lo: nat, hi: nat, digit: char -> bool) {
    lo <= |v| <= hi && forall k :: 0 <= k < |v| ==> digit(v[k])
  }

  /** Every capture of every pattern is a run of `lo` to `hi` digits. */
  ghost predicate CapturesDigits(patterns: seq<Matcher>, lo: nat, hi: nat, digit: char -> bool) {
    forall j, t :: 0 <= j < |patterns| && patterns[j](t).Some? ==> DigitRun(patterns[j](t).value, lo, hi, digit)
  }

  /** What every pattern of a list captures, the cascade captures. */
  lemma CascadeCapturesDigits(patterns: seq<Matcher>, text: string, lo: nat, hi: nat, digit: char -> bool)
    requires CapturesDigits(patterns, lo, hi, digit)
    ensures var r := Cascade(patterns, text);
            r.Some? ==> DigitRun(r.value, lo, hi, digit)
  {
  }

  // ---------------------------------------------------------------------------
  // extract_revenue_and_employment

  /** The three pattern lists, in the source's order: revenue, employment, year. */
  datatype Patterns = Patterns(revenue: seq<Matcher>, employment: seq<Matcher>, year: seq<Matcher>)

  /** `out`: a key for each value that is neither None nor "". */
  function Fields(revenue: Option<string>, employment: Option<string>, year: Option<string>): (out: Dict)
    ensures "revenue_value" in out <==> revenue.Some? && revenue.value != ""
    ensures "employment" in out <==> employment.Some? && employment.value != ""
    ensures "revenue_year" in out <==> year.Some? && year.value != ""
    ensures out.Keys <= {"revenue_value", "employment", "revenue_year"}
    ensures forall k :: k in out ==> out[k].Str? && out[k].s != ""
    ensures "revenue_value" in out ==> out["revenue_value"] == Str(revenue.value)
    ensures "employment" in out ==> out["employment"] == Str(employment.value)
    ensures "revenue_year" in out ==> out["revenue_year"] == Str(year.value)
  {
    var a: Dict := if revenue.Some? && revenue.value != "" then map["revenue_value" := Str(revenue.value)] else map[];
    var b: Dict := if employment.Some? && employment.value != "" then a["employment" := Str(employment.value)] else a;
    if year.Some? && year.value != "" then b["revenue_year" := Str(year.value)] else b
  }

  /** The fields found in a text: three independent cascades, the revenue cleaned by `FirstNumber`. */
  function ExtractedFields(pats: Patterns, text: string): Dict {
    Fields(FirstNumber(Cascade(pats.revenue, text)), Cascade(pats.employment, text), Cascade(pats.year, text))
  }

  /**
   * Each field depends on its own patterns only: replacing the revenue or
   * year patterns leaves the employment entry as it was, and so on.
   */
  lemma FieldsIndependent(p: Patterns, q: Patterns, text: string)
    ensures p.revenue == q.revenue ==>
              ("revenue_value" in ExtractedFields(p, text) <==> "revenue_value" in ExtractedFields(q, text))
              && ("revenue_value" in ExtractedFields(p, text) ==> ExtractedFields(p, text)["revenue_value"] == ExtractedFields(q, text)["revenue_value"])
    ensures p.employment == q.employment ==>
              ("employment" in ExtractedFields(p, text) <==> "employment" in ExtractedFields(q, text))
              && ("employment" in ExtractedFields(p, text) ==> ExtractedFields(p, text)["employment"] == ExtractedFields(q, text)["employment"])
    ensures p.year == q.year ==>
              ("revenue_year" in ExtractedFields(p, text) <==> "revenue_year" in ExtractedFields(q, text))
              && ("revenue_year" in ExtractedFields(p, text) ==> ExtractedFields(p, text)["revenue_year"] == ExtractedFields(q, text)["revenue_year"])
  {
  }

  /** With digit-only employment and year captures, the output holds 1 to 6 and exactly 4 digits. */
  lemma ExtractedShapes(pats: Patterns, text: string)
    requires CapturesDigits(pats.employment, 1, 6, IsDecimal) && CapturesDigits(pats.year, 4, 4, IsDigit)
    ensures var out := ExtractedFields(pats, text);
            && ("employment" in out ==> 1 <= |out["employment"].s| <= 6 && AllDecimal(out["employment"].s))
            && ("revenue_year" in out ==> |out["revenue_year"].s| == 4 && AllDigits(out["revenue_year"].s))
  {
    CascadeCapturesDigits(pats.employment, text, 1, 6, IsDecimal);
    CascadeCapturesDigits(pats.year, text, 4, 4, IsDigit);
  }

  /**
   * `extract_revenue_and_employment`: an exception from opening the PDF
   * propagates; otherwise the fields found in the text of the first ten
   * pages.
   */
  method ExtractRevenueAndEmployment(pdf: seq<Byte>, open: seq<Byte> -> Outcome<seq<PageText>>, pats: Patterns)
    returns (out: Outcome<Dict>)
    ensures open(pdf).Raised? ==> out.Raised?
    ensures open(pdf).Ok? ==> out == Ok(ExtractedFields(pats, Joined(FirstTen(open(pdf).value))))
  {
    var doc := open(pdf);
    if doc.Raised? {
      return Raised;
    }
    var text := JoinPages(doc.value);
    var revenue, _ := RunCascade(pats.revenue, text);
    var employment, _ := RunCascade(pats.employment, text);
    var year, _ := RunCascade(pats.year, text);
    var cleaned := FirstNumber(revenue);
    var d: Dict := map[];
    if cleaned.Some? && cleaned.value != "" {
      d := d["revenue_value" := Str(cleaned.value)];
    }
    if employment.Some? && employment.value != "" {
      d := d["employment" := Str(employment.value)];
    }
    if year.Some? && year.value != "" {
      d := d["revenue_year" := Str(year.value)];
    }
    out := Ok(d);
  }
}
