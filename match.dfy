/**
 * utils/match.py: the name normaliser applied before every lookup, and the
 * guard in front of the fuzzy similarity score.
 */
module Match {
  import opened Common
  import opened Text

  /** `normalize(s)`: `(s or "").strip()`; `None` stands for Python's None. */
  function Normalize(s: Option<string>): string {
    match s
    case None => ""
    case Some(t) => Strip(t)
  }

  /**
   * `normalize` gives "" for None and for "", never keeps whitespace at
   * either end, and gives "" exactly for a blank name.
   */
  lemma NormalizeProps(s: Option<string>)
    ensures s == None || s == Some("") ==> Normalize(s) == ""
    ensures var r := Normalize(s);
            r == [] || (!IsSpace(r[0]) && !IsSpace(r[|r| - 1]))
    ensures s.Some? ==> (Normalize(s) == "" <==> IsBlank(s.value))
  {
    if s.Some? {
      StripProps(s.value);
      StripEmptyIffBlank(s.value);
    }
  }

  /** Normalising a normalised name changes nothing. */
  lemma NormalizeIdempotent(s: Option<string>)
    ensures Normalize(Some(Normalize(s))) == Normalize(s)
  {
    NormalizeProps(s);
    StripOfTrimmed(Normalize(s));
  }

  /** The characters `normalize` removes are all whitespace, on both sides. */
  lemma NormalizeRemovesOnlySpace(s: string)
    ensures var r := Normalize(Some(s));
            exists i, j :: 0 <= i <= j <= |s| && r == s[i..j]
              && (forall k :: 0 <= k < i ==> IsSpace(s[k]))
              && (forall k :: j <= k < |s| ==> IsSpace(s[k]))
  {
    var r := Normalize(Some(s));
    StripProps(s);
    var i := LeadingSpaces(s);
    assert r == s[i..i + |r|];
  }

  /**
   * `name_score(a, b)`: 0 when either name is empty or None, otherwise the
   * similarity `wratio` gives (rapidfuzz's `WRatio`, already cut to an int).
   */
  function NameScore(a: Option<string>, b: Option<string>, wratio: (string, string) -> int): (r: int)
    ensures a == None || a == Some("") || b == None || b == Some("") ==> r == 0
    ensures a.Some? && a.value != "" && b.Some? && b.value != "" ==> r == wratio(a.value, b.value)
  {
    if a == None || a == Some("") || b == None || b == Some("") then 0
    else wratio(a.value, b.value)
  }
}
