/**
 * Field-level helpers of the catalog result normaliser
 * (src/services/tvdb/series/utils.ts): picking the first usable string,
 * reading an entity type, a language code or a numeric id out of a raw value.
 */
module SeriesFields {
  import opened Wrappers
  import opened Text
  import opened Json

  datatype EntityType = Series | Movie

  /** A candidate that `coalesceString` accepts: a string that is not all white space. */
  predicate UsableString(v: Value) {
    v.Some? && v.value.JStr? && Trim(v.value.s) != []
  }

  /**
   * `coalesceString(...candidates)`: the trimmed text of the first usable
   * candidate, or null when there is none.
   */
  function CoalesceString(candidates: seq<Value>): (r: Option<string>)
    ensures r.None? <==> forall i :: 0 <= i < |candidates| ==> !UsableString(candidates[i])
    ensures r.Some? ==> exists i :: 0 <= i < |candidates| && IsFirstUsable(candidates, i)
                                    && r.value == Trim(candidates[i].value.s)
    ensures r.Some? ==> r.value != [] && IsTrimmed(r.value)
  {
    if candidates == [] then None
    else if UsableString(candidates[0]) then
      assert IsFirstUsable(candidates, 0);
      Some(Trim(candidates[0].value.s))
    else
      var r := CoalesceString(candidates[1..]);
      if r.Some? then
        var i :| 0 <= i < |candidates| - 1 && IsFirstUsable(candidates[1..], i)
                 && r.value == Trim(candidates[1..][i].value.s);
        assert IsFirstUsable(candidates, i + 1);
        r
      else
        assert forall i :: 1 <= i < |candidates| ==> candidates[i] == candidates[1..][i - 1];
        r
  }

  /** The candidate at `i` is usable and none before it is. */
  predicate IsFirstUsable(candidates: seq<Value>, i: int)
    requires 0 <= i < |candidates|
  {
    UsableString(candidates[i]) && forall j :: 0 <= j < i ==> !UsableString(candidates[j])
  }

  /** The words `determineEntityType` reads as a movie, after trimming and lowercasing. */
  const MovieWords: set<string> := {"movie", "movies", "film", "films"}

  /** The words it reads as a series. */
  const SeriesWords: set<string> := {"series", "tv", "tv series", "show", "shows"}

  /** The type text as `determineEntityType` compares it. */
  function TypeKey(candidate: string): string {
    Lower(Trim(candidate))
  }

  /** The decision `determineEntityType` takes on the trimmed, lowercased type text. */
  function ClassifyTypeKey(normalized: string): (r: Option<EntityType>)
    ensures r == Some(Movie) <==> normalized in MovieWords
    ensures r == Some(Series) <==> normalized == [] || normalized in SeriesWords
  {
    if normalized == [] then Some(Series)
    else if normalized in MovieWords then Some(Movie)
    else if normalized in SeriesWords then Some(Series)
    else None
  }

  /**
   * `determineEntityType`: no type, or a blank one, means a series; a known
   * word (in any case) gives its type; any other word gives null (the entry
   * is dropped).
   */
  function DetermineEntityType(candidate: Option<string>): (r: Option<EntityType>)
    ensures candidate.None? ==> r == Some(Series)
    ensures candidate.Some? ==>
              && (r == Some(Movie) <==> TypeKey(candidate.value) in MovieWords)
              && (r == Some(Series) <==> TypeKey(candidate.value) == [] || TypeKey(candidate.value) in SeriesWords)
  {
    if candidate.None? then Some(Series)
    else if candidate.value == [] then
      assert TypeKey(candidate.value) == [];
      Some(Series)
    else ClassifyTypeKey(TypeKey(candidate.value))
  }

  /** The spelling of an entity type in the source: 'series' or 'movie'. */
  function EntityTypeName(t: EntityType): (s: string)
    ensures DetermineEntityType(Some(s)) == Some(t)
  {
    match t
    case Series => SeriesNameReadsBack(); SeriesName
    case Movie => MovieNameReadsBack(); MovieName
  }

  const SeriesName: string := "series"
  const MovieName: string := "movie"

  lemma SeriesNameReadsBack()
    ensures DetermineEntityType(Some(SeriesName)) == Some(Series)
  {
    TypeKeyOfLowercase(SeriesName);
    assert SeriesName in SeriesWords;
  }

  lemma MovieNameReadsBack()
    ensures DetermineEntityType(Some(MovieName)) == Some(Movie)
  {
    TypeKeyOfLowercase(MovieName);
    assert MovieName in MovieWords;
  }

  /** A trimmed text without capitals is its own type key. */
  lemma TypeKeyOfLowercase(s: string)
    requires IsTrimmed(s)
    requires forall i :: 0 <= i < |s| ==> 'a' <= s[i] <= 'z'
    ensures TypeKey(s) == s
  {
    TrimOfTrimmed(s);
    LowerOfLowercase(s);
  }

  /** Spellings `normalizeLanguageCode` maps to "eng". */
  const EnglishAliases: set<string> := {"eng", "en", "en-us", "en-gb", "english"}

  /** The characters of `s` from `lo` up to `hi` are lowercase letters. */
  predicate LettersBetween(s: string, lo: int, hi: int)
    requires 0 <= lo <= hi <= |s|
    decreases hi - lo
  {
    lo == hi || (IsAsciiLower(s[lo]) && LettersBetween(s, lo + 1, hi))
  }

  /** `[a-z]{2,3}` */
  predicate IsShortCode(s: string) {
    2 <= |s| <= 3 && LettersBetween(s, 0, |s|)
  }

  /**
   * `normalizeLanguageCode`: "eng" for every English alias, otherwise a
   * two- or three-letter code lowercased, otherwise null.
   */
  function NormalizeLanguageCode(candidate: Value): (r: Option<string>)
    ensures r.Some? ==> r.value == "eng" || IsShortCode(r.value)
    ensures r.Some? ==> candidate.Some? && candidate.value.JStr?
  {
    if candidate.None? || !candidate.value.JStr? then None
    else
      var normalized := Lower(Trim(candidate.value.s));
      if normalized == [] then None
      else if normalized in EnglishAliases then Some("eng")
      else if IsShortCode(normalized) then Some(normalized)
      else None
  }

  /**
   * How `normalizeLanguageCode` reads a string: every English alias, in any
   * case and with any surrounding white space, is "eng"; another two- or
   * three-letter code is kept, lowercased; anything else is null.
   */
  lemma NormalizeLanguageCodeOfText(s: string)
    ensures var n := Lower(Trim(s));
            && (n in EnglishAliases ==> NormalizeLanguageCode(Some(JStr(s))) == Some("eng"))
            && (n !in EnglishAliases && IsShortCode(n) ==> NormalizeLanguageCode(Some(JStr(s))) == Some(n))
            && (n !in EnglishAliases && !IsShortCode(n) ==> NormalizeLanguageCode(Some(JStr(s))).None?)
  {
  }

  /** `n` is `[a-z]{2,3}-[a-z]{2,3}` with the dash at `i`. */
  predicate DashedCodeAt(n: string, i: int) {
    && 2 <= i <= 3 && 2 <= |n| - i - 1 <= 3
    && n[i] == '-' && LettersBetween(n, 0, i) && LettersBetween(n, i + 1, |n|)
  }

  /** `^[a-z]{2,3}(-[a-z]{2,3})?$` */
  predicate IsCodeShape(n: string) {
    IsShortCode(n) || DashedCodeAt(n, 2) || DashedCodeAt(n, 3)
  }

  /** `looksLikeLanguageCode`: the trimmed, lowercased text matches `^[a-z]{2,3}(-[a-z]{2,3})?$`. */
  predicate LooksLikeLanguageCode(value: string) {
    IsCodeShape(Lower(Trim(value)))
  }

  /** The text after the leading characters that are not decimal digits. */
  function SkipNonDigits(s: string): (r: string)
    ensures |r| <= |s| && r == s[|s| - |r|..]
    ensures r == [] || IsDigit(r[0])
    ensures forall i :: 0 <= i < |s| - |r| ==> !IsDigit(s[i])
  {
    if s != [] && !IsDigit(s[0]) then
      var r := SkipNonDigits(s[1..]);
      assert forall i :: 1 <= i < |s| - |r| ==> s[i] == s[1..][i - 1];
      r
    else s
  }

  /** The longest prefix made of decimal digits. */
  function LeadingDigits(s: string): (r: string)
    ensures |r| <= |s| && r == s[..|r|] && AllDigits(r)
    ensures |r| < |s| ==> !IsDigit(s[|r|])
  {
    if s != [] && IsDigit(s[0]) then [s[0]] + LeadingDigits(s[1..]) else []
  }

  /** What `s.match(/\d+/)` finds: the first run of digits, empty when there is none. */
  function FirstDigitRun(s: string): (r: string)
    ensures AllDigits(r)
  {
    LeadingDigits(SkipNonDigits(s))
  }

  /**
   * `parseNumericId`: a finite number as it is; a non-blank string by its
   * first run of digits; null for everything else.
   */
  function ParseNumericId(candidate: Value): (r: Option<Num>)
    ensures r.Some? ==> r.value.Finite?
    ensures r.Some? ==> candidate.Some? && (candidate.value.JNum? || candidate.value.JStr?)
    ensures r.Some? && candidate.value.JStr? ==> r.value.v >= 0
    ensures candidate.Some? && candidate.value.JNum? ==>
              r == if candidate.value.n.Finite? then Some(candidate.value.n) else None
    ensures candidate.Some? && candidate.value.JStr? && Trim(candidate.value.s) == [] ==> r.None?
    ensures candidate.Some? && candidate.value.JStr? && (forall i :: 0 <= i < |candidate.value.s| ==> !IsDigit(candidate.value.s[i])) ==>
              r.None?
  {
    match candidate
    case Some(JNum(n)) => if n.Finite? then Some(n) else None
    case Some(JStr(s)) =>
      if Trim(s) == [] then None
      else
        var run := FirstDigitRun(s);
        if run == [] then None else Some(Finite(DigitsValue(run)))
    case _ => None
  }

  lemma {:induction false} SkipNonDigitsPrefix(p: string, rest: string)
    requires forall i :: 0 <= i < |p| ==> !IsDigit(p[i])
    requires rest == [] || IsDigit(rest[0])
    ensures SkipNonDigits(p + rest) == rest
  {
    if p != [] {
      assert (p + rest)[1..] == p[1..] + rest;
      SkipNonDigitsPrefix(p[1..], rest);
    }
  }

  lemma {:induction false} LeadingDigitsRun(d: string, rest: string)
    requires AllDigits(d)
    requires rest == [] || !IsDigit(rest[0])
    ensures LeadingDigits(d + rest) == d
  {
    if d != [] {
      assert (d + rest)[1..] == d[1..] + rest;
      LeadingDigitsRun(d[1..], rest);
    }
  }

  /**
   * An id written as text, such as "series-81189", is the value of its
   * first run of digits, whatever surrounds it.
   */
  lemma ParseNumericIdOfText(prefix: string, digits: string, rest: string)
    requires forall i :: 0 <= i < |prefix| ==> !IsDigit(prefix[i])
    requires digits != [] && AllDigits(digits)
    requires rest == [] || !IsDigit(rest[0])
    ensures ParseNumericId(Some(JStr(prefix + digits + rest))) == Some(Finite(DigitsValue(digits)))
  {
    var s := prefix + digits + rest;
    assert s == prefix + (digits + rest);
    assert Trim(s) != [] by {
      assert s[|prefix|] == digits[0];
      assert !IsSpace(s[|prefix|]);
      TrimEmptyIffBlank(s);
    }
    assert FirstDigitRun(s) == digits by {
      SkipNonDigitsPrefix(prefix, digits + rest);
      LeadingDigitsRun(digits, rest);
    }
    assert ParseNumericId(Some(JStr(s))) == Some(Finite(DigitsValue(FirstDigitRun(s))));
  }
}
