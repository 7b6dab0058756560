/**
 * The catalog request and response helpers of
 * src/services/tvdb/series/utils.ts: the query parameters of a search
 * request, the shorter queries tried when a search finds nothing, and the
 * normalisation of a search response into catalog entries.
 *
 * The source reads four tuning constants from a module that is not part of
 * this model; they are parameters here (`minWordLength`,
 * `prefixWordCount`, `maxEntryDepth`, `maxTranslationDepth`).
 */
module SeriesUtils {
  import opened Wrappers
  import opened Text
  import opened Seqs
  import opened Json
  import opened SeriesFields
  import opened Translations

  // ---------------------------------------------------------------------
  // Query parameters
  // ---------------------------------------------------------------------

  /** The name the search text travels under. */
  datatype QueryKey = Q | Query

  function QueryName(k: QueryKey): string {
    if k == Q then "q" else "query"
  }

  /**
   * `SearchOptions`. An option left out is `None`, one set to null is
   * `Some(JNull)`; the others hold what the caller passed.
   */
  datatype SearchOptions = SearchOptions(
    entityType: Option<EntityType>,
    network: Value,
    company: Value,
    year: Value,
    country: Value,
    language: Value,
    director: Value,
    primaryType: Value,
    remoteId: Value,
    offset: Value,
    limit: Value)

  /**
   * The `Record<string, string>` of query parameters, one field per name it
   * may hold (`None` where the name is absent); `Entries` lists it as
   * JavaScript enumerates it.
   */
  datatype SearchParams = SearchParams(
    queryKey: QueryKey,
    term: string,
    limit: Option<string>,
    entityType: Option<string>,
    network: Option<string>,
    company: Option<string>,
    year: Option<string>,
    country: Option<string>,
    language: Option<string>,
    director: Option<string>,
    primaryType: Option<string>,
    remoteId: Option<string>,
    offset: Option<string>)

  function Entry(name: string, value: Option<string>): seq<(string, string)> {
    if value.Some? then [(name, value.value)] else []
  }

  /** The parameters in insertion order, each under the name it travels under. */
  function Entries(params: SearchParams): (r: seq<(string, string)>)
    ensures r != [] && r[0] == (QueryName(params.queryKey), params.term)
  {
    [(QueryName(params.queryKey), params.term)]
    + Entry("limit", params.limit) + Entry("type", params.entityType)
    + Entry("network", params.network) + Entry("company", params.company)
    + Entry("year", params.year) + Entry("country", params.country)
    + Entry("language", params.language) + Entry("director", params.director)
    + Entry("primaryType", params.primaryType) + Entry("remote_id", params.remoteId)
    + Entry("offset", params.offset)
  }

  /** `coalesceString(option ?? undefined)` on one option: its trimmed text, unless it is not a non-blank string. */
  function TextOption(option: Value): (r: Option<string>)
    ensures r.Some? <==> UsableString(option)
    ensures r.Some? ==> r.value == Trim(option.value.s)
  {
    if UsableString(option) then Some(Trim(option.value.s)) else None
  }

  /** `TextOption` is `coalesceString` of that one candidate; `?? undefined` turns null into a non-string as well. */
  lemma TextOptionIsCoalesce(option: Value)
    ensures TextOption(option) == CoalesceString([OrElse(option, None)])
  {
    if UsableString(option) {
      assert IsFirstUsable([OrElse(option, None)], 0);
    }
  }

  /**
   * A text option is sent exactly when it is a string that is not all
   * white space, and then trimmed.
   */
  predicate TextSent(sent: Option<string>, option: Value) {
    && (sent.Some? <==> UsableString(option))
    && (sent.Some? ==> sent.value == Trim(option.value.s))
  }

  /** `options.entityType`, when set, as the text sent. */
  function TypeText(entityType: Option<EntityType>): (r: Option<string>)
    ensures r.Some? <==> entityType.Some?
    ensures entityType == Some(Series) ==> r == Some(SeriesName)
    ensures entityType == Some(Movie) ==> r == Some(MovieName)
    ensures r.Some? ==> DetermineEntityType(r) == entityType
  {
    if entityType.Some? then Some(EntityTypeName(entityType.value)) else None
  }

  /** `String(options.year)`, sent only for a finite number. */
  function YearText(year: Value): (r: Option<string>)
    ensures r.Some? <==> IsFiniteNumber(year)
    ensures r.Some? ==> r.value == IntToString(year.value.n.v)
  {
    if IsFiniteNumber(year) then Some(IntToString(year.value.n.v)) else None
  }

  /** `String(Math.trunc(options.offset))`, sent only for a finite number that is not negative. */
  function OffsetText(offset: Value): (r: Option<string>)
    ensures r.Some? <==> IsFiniteNumber(offset) && offset.value.n.v >= 0
    ensures r.Some? ==> r.value == NatToString(offset.value.n.v)
    ensures r.Some? ==> AllDigits(r.value) && DigitsValue(r.value) == offset.value.n.v
  {
    if IsFiniteNumber(offset) && offset.value.n.v >= 0 then
      NatToStringRoundTrip(offset.value.n.v);
      Some(NatToString(offset.value.n.v))
    else None
  }

  /**
   * `buildSearchParams`: the search text under the chosen key, the limit
   * (at least 1), the entity type when one is asked for, every text option
   * that is not blank (trimmed), a finite year and a finite, non-negative
   * offset, and nothing else. Each `if (value) params.key = value` becomes
   * an assignment of an optional value to a field that was absent.
   */
  method BuildSearchParams(term: string, limit: int, options: SearchOptions, queryKey: QueryKey)
    returns (params: SearchParams)
    ensures params.queryKey == queryKey && params.term == term
    ensures params.limit == Some(NatToString(if limit > 1 then limit else 1))
    ensures params.limit.Some? && AllDigits(params.limit.value)
    ensures DigitsValue(params.limit.value) == if limit > 1 then limit else 1
    ensures params.entityType == TypeText(options.entityType)
    ensures params.entityType.Some? <==> options.entityType.Some?
    ensures DetermineEntityType(params.entityType) == options.entityType || options.entityType.None?
    ensures TextSent(params.network, options.network)
    ensures TextSent(params.company, options.company)
    ensures TextSent(params.country, options.country)
    ensures TextSent(params.language, options.language)
    ensures TextSent(params.director, options.director)
    ensures TextSent(params.primaryType, options.primaryType)
    ensures TextSent(params.remoteId, options.remoteId)
    ensures params.year == YearText(options.year)
    ensures params.offset == OffsetText(options.offset)
    ensures params.offset.Some? <==> IsFiniteNumber(options.offset) && options.offset.value.n.v >= 0
    ensures params.offset.Some? ==> AllDigits(params.offset.value)
                                    && DigitsValue(params.offset.value) == options.offset.value.n.v
  {
    params := SearchParams(queryKey, term, None, None, None, None, None, None, None, None, None, None, None);
    var limitValue := if limit > 1 then limit else 1;
    NatToStringRoundTrip(limitValue);
    params := params.(limit := Some(NatToString(limitValue)));
    params := params.(entityType := TypeText(options.entityType));
    params := params.(network := TextOption(options.network));
    params := params.(company := TextOption(options.company));
    params := params.(year := YearText(options.year));
    params := params.(country := TextOption(options.country));
    params := params.(language := TextOption(options.language));
    params := params.(director := TextOption(options.director));
    params := params.(primaryType := TextOption(options.primaryType));
    params := params.(remoteId := TextOption(options.remoteId));
    params := params.(offset := OffsetText(options.offset));
  }

  // ---------------------------------------------------------------------
  // Fallback queries
  // ---------------------------------------------------------------------

  /** One character of `term.replace(/[^\w\s]/g, ' ')`. */
  function CleanChar(c: char): (d: char)
    ensures IsWordChar(d) || IsSpace(d)
  {
    if IsWordChar(c) || IsSpace(c) then c else ' '
  }

  /** `term.replace(/[^\w\s]/g, ' ')`: every character outside `\w` and `\s` becomes a space. */
  function Cleaned(term: string): (r: string)
    ensures |r| == |term|
  {
    seq(|term|, i requires 0 <= i < |term| => CleanChar(term[i]))
  }

  /**
   * `s.split(/\s+/)`, with the piece being read so far in `piece`: the texts
   * between runs of white space, with an empty piece before a leading run
   * and after a trailing one.
   */
  function SplitFrom(s: string, piece: string): (r: seq<string>)
    ensures r != []
    decreases |s|
  {
    if s == [] then [piece]
    else if IsSpace(s[0]) then [piece] + SplitFrom(TrimStart(s[1..]), "")
    else SplitFrom(s[1..], piece + [s[0]])
  }

  function SplitWs(s: string): (r: seq<string>)
    ensures r != []
  {
    SplitFrom(s, "")
  }

  predicate AllWordChars(w: string) {
    forall i :: 0 <= i < |w| ==> IsWordChar(w[i])
  }

  predicate WordsAndSpaces(s: string) {
    forall i :: 0 <= i < |s| ==> IsWordChar(s[i]) || IsSpace(s[i])
  }

  /** Splitting a text made of word characters and white space leaves pieces of word characters. */
  lemma {:induction false} SplitFromWordChars(s: string, piece: string)
    requires WordsAndSpaces(s) && AllWordChars(piece)
    ensures forall w :: w in SplitFrom(s, piece) ==> AllWordChars(w)
    decreases |s|
  {
    if s == [] {
      assert SplitFrom(s, piece) == [piece];
    } else {
      WordsAndSpacesTail(s);
      if IsSpace(s[0]) {
        var rest := TrimStart(s[1..]);
        WordsAndSpacesTrimStart(s[1..]);
        SplitFromWordChars(rest, "");
        assert SplitFrom(s, piece) == [piece] + SplitFrom(rest, "");
      } else {
        WordCharsSnoc(piece, s[0]);
        SplitFromWordChars(s[1..], piece + [s[0]]);
      }
    }
  }

  /** Dropping leading white space keeps a text of word characters and white space. */
  lemma {:induction false} WordsAndSpacesTrimStart(s: string)
    requires WordsAndSpaces(s)
    ensures WordsAndSpaces(TrimStart(s))
    decreases |s|
  {
    if s != [] && IsSpace(s[0]) {
      WordsAndSpacesTail(s);
      WordsAndSpacesTrimStart(s[1..]);
    }
  }

  lemma WordsAndSpacesTail(s: string)
    requires s != [] && WordsAndSpaces(s)
    ensures WordsAndSpaces(s[1..])
  {
    assert forall i :: 0 <= i < |s| - 1 ==> s[1..][i] == s[i + 1];
  }

  /** One more word character keeps a piece of word characters. */
  lemma WordCharsSnoc(piece: string, c: char)
    requires AllWordChars(piece) && IsWordChar(c)
    ensures AllWordChars(piece + [c])
  {
    forall i | 0 <= i < |piece| + 1 ensures IsWordChar((piece + [c])[i]) {
      if i < |piece| {
        assert (piece + [c])[i] == piece[i];
      }
    }
  }

  /** `words.map((word) => word.trim())` */
  function TrimAll(ws: seq<string>): (r: seq<string>)
    ensures |r| == |ws|
  {
    seq(|ws|, i requires 0 <= i < |ws| => Trim(ws[i]))
  }

  /** `words.filter((word) => word.length > n)` */
  function LongerThan(ws: seq<string>, n: nat): (r: seq<string>)
    ensures |r| <= |ws|
  {
    if ws == [] then []
    else if |ws[0]| > n then [ws[0]] + LongerThan(ws[1..], n)
    else LongerThan(ws[1..], n)
  }

  /** The filter keeps exactly the texts longer than `n`, in their order and as often as they occur. */
  lemma {:induction false} LongerThanFacts(ws: seq<string>, n: nat)
    ensures forall w :: w in LongerThan(ws, n) <==> w in ws && |w| > n
    ensures forall w :: multiset(LongerThan(ws, n))[w] == if |w| > n then multiset(ws)[w] else 0
    ensures IsSubseq(LongerThan(ws, n), ws)
  {
    if ws != [] {
      var rest := LongerThan(ws[1..], n);
      LongerThanFacts(ws[1..], n);
      assert forall w :: w in ws <==> w == ws[0] || w in ws[1..];
      assert [ws[0]] + ws[1..] == ws;
      assert multiset(ws) == multiset{ws[0]} + multiset(ws[1..]);
      if |ws[0]| > n {
        SubseqCons(ws[0], rest, ws[1..]);
      } else {
        SubseqSkip(ws[0], rest, ws[1..]);
      }
    }
  }

  /** The words `deriveFallbackQueries` works with. */
  function Words(term: string, minWordLength: nat): seq<string> {
    LongerThan(TrimAll(SplitWs(Cleaned(term))), minWordLength)
  }

  /** `Array.from(fallback).filter((word) => word.length > 0)` */
  function NonEmptyTexts(ws: seq<string>): seq<string> {
    LongerThan(ws, 0)
  }

  /** The first query tried after the full term: the first words, joined by single spaces. */
  function PrefixQuery(words: seq<string>, prefixWordCount: nat): string {
    Join(Take(words, prefixWordCount), " ")
  }

  /**
   * What `deriveFallbackQueries` returns: nothing when the term has at most
   * one word; otherwise the prefix query and then every word, each once, in
   * that order, with the empty text left out.
   */
  function FallbackQueries(term: string, minWordLength: nat, prefixWordCount: nat): seq<string> {
    var words := Words(term, minWordLength);
    if |words| <= 1 then []
    else NonEmptyTexts(Dedup([PrefixQuery(words, prefixWordCount)] + words))
  }

  /** `deriveFallbackQueries`, run as the source runs it: a `Set` filled in a loop. */
  method DeriveFallbackQueries(term: string, minWordLength: nat, prefixWordCount: nat)
    returns (queries: seq<string>)
    ensures queries == FallbackQueries(term, minWordLength, prefixWordCount)
  {
    var words := Words(term, minWordLength);
    if |words| <= 1 {
      return [];
    }
    var first := [PrefixQuery(words, prefixWordCount)];
    var fallback := first;
    DedupSingle(first[0]);
    for i := 0 to |words|
      invariant fallback == Dedup(first + words[..i])
    {
      DedupStep(first, words, i);
      if words[i] !in fallback {
        fallback := fallback + [words[i]];
      }
    }
    assert words[..|words|] == words;
    queries := NonEmptyTexts(fallback);
  }

  /** A text of word characters has nothing for `trim` to remove. */
  lemma WordCharsTrimmed(w: string)
    requires AllWordChars(w)
    ensures Trim(w) == w
  {
    if w != [] {
      assert IsWordChar(w[0]) && IsWordChar(w[|w| - 1]);
    }
    TrimOfTrimmed(w);
  }

  lemma TrimAllWordChars(pieces: seq<string>)
    requires forall w :: w in pieces ==> AllWordChars(w)
    ensures forall w :: w in TrimAll(pieces) ==> AllWordChars(w)
  {
    forall i | 0 <= i < |pieces| ensures AllWordChars(TrimAll(pieces)[i]) {
      WordCharsTrimmed(pieces[i]);
    }
  }

  /** Every word is made of `\w` characters and is longer than the minimum length. */
  lemma WordsShape(term: string, minWordLength: nat)
    ensures forall w :: w in Words(term, minWordLength) ==> |w| > minWordLength && AllWordChars(w)
  {
    SplitFromWordChars(Cleaned(term), "");
    TrimAllWordChars(SplitWs(Cleaned(term)));
    LongerThanFacts(TrimAll(SplitWs(Cleaned(term))), minWordLength);
  }

  lemma {:induction false} JoinNonEmpty(ws: seq<string>, sep: string)
    requires ws != [] && ws[0] != []
    ensures Join(ws, sep) != []
  {
  }

  /**
   * The fallback queries of a term: none unless it has at least two words;
   * then each is distinct and non-empty, every word is among them, and
   * nothing else is besides the prefix query, which comes first; and they
   * come in the order in which the prefix query and the words first occur.
   */
  lemma FallbackQueriesShape(term: string, minWordLength: nat, prefixWordCount: nat)
    ensures var words := Words(term, minWordLength);
            var r := FallbackQueries(term, minWordLength, prefixWordCount);
            && (r == [] <==> |words| <= 1)
            && Distinct(r)
            && (forall q :: q in r ==> q != [])
            && (|words| > 1 ==> forall w :: w in words ==> w in r)
            && (forall q :: q in r ==> q in words || q == PrefixQuery(words, prefixWordCount))
            && (|words| > 1 && prefixWordCount > 0 ==> r[0] == PrefixQuery(words, prefixWordCount))
            && (|words| > 1 ==> InFirstOccurrenceOrder(r, [PrefixQuery(words, prefixWordCount)] + words))
  {
    var words := Words(term, minWordLength);
    var r := FallbackQueries(term, minWordLength, prefixWordCount);
    if |words| > 1 {
      var all := [PrefixQuery(words, prefixWordCount)] + words;
      var d := Dedup(all);
      DedupFacts(all);
      LongerThanFacts(d, 0);
      WordsShape(term, minWordLength);
      assert words[0] in all && words[0] != [];
      NonEmptyTextsDistinct(d);
      DedupOrder(all);
      SubseqKeepsOrder(r, d, all);
      if prefixWordCount > 0 {
        JoinNonEmpty(Take(words, prefixWordCount), " ");
        DedupHead(all);
        NonEmptyTextsHead(d);
      }
    }
  }

  lemma {:induction false} NonEmptyTextsDistinct(ws: seq<string>)
    requires Distinct(ws)
    ensures Distinct(NonEmptyTexts(ws))
  {
    LongerThanFacts(ws, 0);
    DistinctSubseq(NonEmptyTexts(ws), ws);
  }

  /** A subsequence of a sequence without repetitions has none either. */
  lemma {:induction false} DistinctSubseq(a: seq<string>, b: seq<string>)
    requires IsSubseq(a, b) && Distinct(b)
    ensures Distinct(a)
    decreases |b|
  {
    if a != [] && b != [] {
      if a[0] == b[0] {
        DistinctSubseq(a[1..], b[1..]);
        SubseqMembers(a[1..], b[1..]);
        assert a[0] !in b[1..];
        forall j | 0 < j < |a| ensures a[0] != a[j] {
          assert a[j] == a[1..][j - 1];
        }
      } else {
        DistinctSubseq(a, b[1..]);
      }
    }
  }

  lemma {:induction false} NonEmptyTextsHead(ws: seq<string>)
    requires ws != [] && ws[0] != []
    ensures NonEmptyTexts(ws) != [] && NonEmptyTexts(ws)[0] == ws[0]
  {
  }

  // ---------------------------------------------------------------------
  // Response normalisation
  // ---------------------------------------------------------------------

  /** The properties under which a response may hold its entries, in the order they are tried. */
  const EntryKeys: seq<string> := ["series", "results", "data"]

  /**
   * `extractSeriesEntries`: an array is the list of entries; an object is
   * searched under `series`, `results` and `data`, in that order, no deeper
   * than `maxEntryDepth`, and the first non-empty list found wins.
   */
  function ExtractSeriesEntries(payload: Value, depth: int, maxEntryDepth: int): (r: seq<Json>)
    decreases maxEntryDepth - depth + 1, 1, 0
  {
    if payload.Some? && payload.value.JArr? then payload.value.items
    else if !Truthy(payload) || !payload.value.JObj? || depth > maxEntryDepth then []
    else EntriesUnderKeys(payload.value.fields, EntryKeys, depth, maxEntryDepth)
  }

  /** The loop of `extractSeriesEntries` over the remaining `keys`. */
  function EntriesUnderKeys(fields: seq<Field>, keys: seq<string>, depth: int, maxEntryDepth: int): (r: seq<Json>)
    requires depth <= maxEntryDepth
    decreases maxEntryDepth - depth + 1, 0, |keys|
  {
    if keys == [] then []
    else if !HasKey(fields, keys[0]) then EntriesUnderKeys(fields, keys[1..], depth, maxEntryDepth)
    else
      var extracted := ExtractSeriesEntries(Get(fields, keys[0]), depth + 1, maxEntryDepth);
      if |extracted| > 0 then extracted else EntriesUnderKeys(fields, keys[1..], depth, maxEntryDepth)
  }

  /** The value reached from `v` by following `path` through object properties. */
  function Follow(v: Value, path: seq<string>): Value
    decreases |path|
  {
    if path == [] then v else Follow(Member(v, path[0]), path[1..])
  }

  /** The length of path `extractSeriesEntries` may follow from `depth`. */
  function PathBudget(depth: int, maxEntryDepth: int): nat {
    if depth <= maxEntryDepth then maxEntryDepth - depth + 1 else 0
  }

  predicate IsEntryPath(path: seq<string>) {
    forall k :: k in path ==> k in EntryKeys
  }

  /**
   * Entries are never made up: a non-empty result is the items of an array
   * reached through `series`, `results` and `data` properties, no more of
   * them than the depth bound allows.
   */
  lemma {:induction false} EntriesComeFromAnArray(payload: Value, depth: int, maxEntryDepth: int)
    ensures var r := ExtractSeriesEntries(payload, depth, maxEntryDepth);
            r != [] ==> exists path :: |path| <= PathBudget(depth, maxEntryDepth) && IsEntryPath(path)
                                       && Follow(payload, path) == Some(JArr(r))
    decreases maxEntryDepth - depth + 1, 1, 0
  {
    var r := ExtractSeriesEntries(payload, depth, maxEntryDepth);
    if payload.Some? && payload.value.JArr? {
      assert Follow(payload, []) == Some(JArr(r));
    } else if !Truthy(payload) || !payload.value.JObj? || depth > maxEntryDepth {
    } else if r != [] {
      var fields := payload.value.fields;
      EntriesUnderKeysComeFromAnArray(fields, EntryKeys, depth, maxEntryDepth);
      var k, path :| k in EntryKeys && IsEntryPath(path) && |path| <= PathBudget(depth + 1, maxEntryDepth)
                     && Follow(Get(fields, k), path) == Some(JArr(r));
      var full := [k] + path;
      assert full[1..] == path;
      assert Follow(payload, full) == Some(JArr(r));
      assert IsEntryPath(full);
    }
  }

  lemma {:induction false} EntriesUnderKeysComeFromAnArray(fields: seq<Field>, keys: seq<string>, depth: int, maxEntryDepth: int)
    requires depth <= maxEntryDepth
    requires forall k :: k in keys ==> k in EntryKeys
    ensures var r := EntriesUnderKeys(fields, keys, depth, maxEntryDepth);
            r != [] ==> exists k, path :: k in EntryKeys && IsEntryPath(path) && |path| <= PathBudget(depth + 1, maxEntryDepth)
                                          && Follow(Get(fields, k), path) == Some(JArr(r))
    decreases maxEntryDepth - depth + 1, 0, |keys|
  {
    if keys != [] {
      if HasKey(fields, keys[0]) {
        EntriesComeFromAnArray(Get(fields, keys[0]), depth + 1, maxEntryDepth);
      }
      EntriesUnderKeysComeFromAnArray(fields, keys[1..], depth, maxEntryDepth);
    }
  }

  /** The extraction under one property of a record, one level down. */
  function Under(fields: seq<Field>, key: string, depth: int, maxEntryDepth: int): seq<Json>
  {
    ExtractSeriesEntries(Get(fields, key), depth + 1, maxEntryDepth)
  }

  /**
   * An array is the list itself; anything that is neither an array nor an
   * object, or an object beyond the depth bound, gives nothing; an object
   * within the bound gives its `series` entries when there are some, else
   * its `results` entries when there are some, else its `data` entries.
   */
  lemma ExtractSeriesEntriesOrder(payload: Value, depth: int, maxEntryDepth: int)
    ensures payload.Some? && payload.value.JArr? ==> ExtractSeriesEntries(payload, depth, maxEntryDepth) == payload.value.items
    ensures !(payload.Some? && (payload.value.JArr? || payload.value.JObj?)) ==> ExtractSeriesEntries(payload, depth, maxEntryDepth) == []
    ensures payload.Some? && payload.value.JObj? && depth > maxEntryDepth ==> ExtractSeriesEntries(payload, depth, maxEntryDepth) == []
    ensures payload.Some? && payload.value.JObj? && depth <= maxEntryDepth ==>
              var fields := payload.value.fields;
              var r := ExtractSeriesEntries(payload, depth, maxEntryDepth);
              && (Under(fields, "series", depth, maxEntryDepth) != [] ==> r == Under(fields, "series", depth, maxEntryDepth))
              && (Under(fields, "series", depth, maxEntryDepth) == [] && Under(fields, "results", depth, maxEntryDepth) != [] ==>
                    r == Under(fields, "results", depth, maxEntryDepth))
              && (Under(fields, "series", depth, maxEntryDepth) == [] && Under(fields, "results", depth, maxEntryDepth) == [] ==>
                    r == Under(fields, "data", depth, maxEntryDepth))
  {
    if payload.Some? && payload.value.JObj? && depth <= maxEntryDepth {
      var fields := payload.value.fields;
      assert ExtractSeriesEntries(None, depth + 1, maxEntryDepth) == [];
      assert EntryKeys[1..] == ["results", "data"] && EntryKeys[1..][1..] == ["data"];
      assert ["data"][1..] == [];
      assert EntriesUnderKeys(fields, ["data"], depth, maxEntryDepth) == Under(fields, "data", depth, maxEntryDepth);
      assert EntriesUnderKeys(fields, ["results", "data"], depth, maxEntryDepth) ==
               if Under(fields, "results", depth, maxEntryDepth) != [] then Under(fields, "results", depth, maxEntryDepth)
               else Under(fields, "data", depth, maxEntryDepth);
    }
  }

  /** A normalised catalog entry, `TvdbSeries`. */
  datatype SeriesEntry = SeriesEntry(
    id: Num,
    name: string,
    overview: Option<string>,
    firstAired: Option<string>,
    entityType: EntityType)

  /** `!id` is false: the id is neither 0 nor NaN. */
  predicate IsTruthyId(id: Num) {
    id != Finite(0) && id != NaN
  }

  /** What every normalised entry satisfies. */
  predicate IsNormalized(e: SeriesEntry, filter: Option<EntityType>) {
    && IsTruthyId(e.id)
    && e.name != [] && IsTrimmed(e.name)
    && (e.overview.Some? ==> e.overview.value != [] && IsTrimmed(e.overview.value))
    && (e.firstAired.Some? ==> e.firstAired.value != [] && IsTrimmed(e.firstAired.value))
    && (filter.Some? ==> e.entityType == filter.value)
  }

  /** The entity type an entry declares, through `primary_type`, else `type`. */
  function DeclaredType(record: Value): Option<EntityType> {
    DetermineEntityType(CoalesceString([Member(record, "primary_type"), Member(record, "type")]))
  }

  /** An id candidate kept when a number, parsed when not; null when the result is falsy. */
  function IdOf(candidate: Value): (r: Option<Num>)
    ensures r.Some? ==> IsTruthyId(r.value)
    ensures candidate.Some? && candidate.value.JNum? ==>
              r == if IsTruthyId(candidate.value.n) then Some(candidate.value.n) else None
    ensures r.Some? ==> candidate.Some? && (candidate.value.JNum? || (candidate.value.JStr? && r.value.Finite? && r.value.v > 0))
  {
    if candidate.Some? && candidate.value.JNum? then
      if IsTruthyId(candidate.value.n) then Some(candidate.value.n) else None
    else
      var id := ParseNumericId(candidate);
      if id.Some? && IsTruthyId(id.value) then
        assert candidate.value.JStr? && id.value.Finite? && id.value.v >= 0;
        id
      else None
  }

  /** `id ?? tvdb_id`, read by `IdOf`. */
  function EntryId(record: Value): (r: Option<Num>)
    ensures r.Some? ==> IsTruthyId(r.value)
  {
    IdOf(OrElse(Member(record, "id"), Member(record, "tvdb_id")))
  }

  /** `tvdb_id` is consulted only when `id` is null or missing. */
  lemma EntryIdPrefersId(record: Value)
    ensures !IsNullish(Member(record, "id")) ==> EntryId(record) == IdOf(Member(record, "id"))
    ensures IsNullish(Member(record, "id")) ==> EntryId(record) == IdOf(Member(record, "tvdb_id"))
  {
  }

  /** The entry's name: `name`, else `seriesName`, else `series.name`. */
  function EntryName(record: Value): Option<string> {
    CoalesceString([Member(record, "name"), Member(record, "seriesName"), Member(Member(record, "series"), "name")])
  }

  /**
   * The entry's overview: `overview`, else `synopsis`, else the chosen
   * translation of the record, else that of its nested `series` record.
   */
  function EntryOverview(record: Value, maxTranslationDepth: int): Option<string> {
    CoalesceString([
      Member(record, "overview"),
      Member(record, "synopsis"),
      TextValue(OverviewFromTranslations(Member(record, "overviewTranslations"), maxTranslationDepth)),
      TextValue(OverviewFromTranslations(Member(Member(record, "series"), "overviewTranslations"), maxTranslationDepth))])
  }

  /**
   * The entry's first-aired date: `firstAired`, `first_air_date`,
   * `first_release.date`, the nested series' `firstAired` or
   * `first_air_date`, and finally `year`.
   */
  function EntryFirstAired(record: Value): Option<string> {
    var seriesRecord := Member(record, "series");
    CoalesceString([
      Member(record, "firstAired"),
      Member(record, "first_air_date"),
      Member(Member(record, "first_release"), "date"),
      Member(seriesRecord, "firstAired"),
      Member(seriesRecord, "first_air_date"),
      Member(record, "year")])
  }

  /**
   * `mapSeriesEntry`: an object with a known entity type that passes the
   * filter, a truthy id and a name becomes an entry; anything else is
   * dropped. The overview and first-aired date are optional.
   */
  function MapSeriesEntry(raw: Value, filter: Option<EntityType>, maxTranslationDepth: int): (r: Option<SeriesEntry>)
    ensures r.Some? ==> raw.Some? && raw.value.JObj?
    ensures r.Some? ==> IsNormalized(r.value, filter)
    ensures r.Some? ==> DeclaredType(raw) == Some(r.value.entityType)
                        && EntryId(raw) == Some(r.value.id)
                        && EntryName(raw) == Some(r.value.name)
    ensures r.Some? ==> r.value.overview == EntryOverview(raw, maxTranslationDepth)
                        && r.value.firstAired == EntryFirstAired(raw)
  {
    if !Truthy(raw) || !(raw.value.JObj? || raw.value.JArr?) then None
    else
      var entityType := DeclaredType(raw);
      if entityType.None? then None
      else if filter.Some? && entityType.value != filter.value then None
      else
        var id := EntryId(raw);
        if id.None? then None
        else
          var name := EntryName(raw);
          if name.None? then None
          else
            Some(SeriesEntry(id.value, name.value, EntryOverview(raw, maxTranslationDepth), EntryFirstAired(raw), entityType.value))
  }

  /**
   * The converse: an object whose type is known and passes the filter, with
   * a truthy id and a name, is kept.
   */
  lemma MapSeriesEntryKeeps(fields: seq<Field>, filter: Option<EntityType>, maxTranslationDepth: int)
    requires var record := Some(JObj(fields));
             && DeclaredType(record).Some?
             && (filter.None? || DeclaredType(record) == filter)
             && EntryId(record).Some? && EntryName(record).Some?
    ensures MapSeriesEntry(Some(JObj(fields)), filter, maxTranslationDepth).Some?
  {
  }

  /** `.filter((entry) => entry !== null)` */
  function Present<T>(opts: seq<Option<T>>): (r: seq<T>)
    ensures |r| <= |opts|
  {
    if opts == [] then []
    else if opts[0].Some? then [opts[0].value] + Present(opts[1..])
    else Present(opts[1..])
  }

  /** Dropping the nulls keeps the order of what remains: it distributes over concatenation. */
  lemma {:induction false} PresentAppend<T>(a: seq<Option<T>>, b: seq<Option<T>>)
    ensures Present(a + b) == Present(a) + Present(b)
  {
    if a != [] {
      assert (a + b)[0] == a[0];
      assert (a + b)[1..] == a[1..] + b;
      PresentAppend(a[1..], b);
      if a[0].Some? {
        AppendAssoc([a[0].value], Present(a[1..]), Present(b));
      }
    } else {
      assert a + b == b;
      assert Present(a) + Present(b) == Present(b);
    }
  }

  /** `xs`, each wrapped as a present value. */
  function Somes<T>(xs: seq<T>): (r: seq<Option<T>>)
    ensures |r| == |xs|
  {
    seq(|xs|, i requires 0 <= i < |xs| => Some(xs[i]))
  }

  /**
   * What remains is exactly what was not null, in its order and as often as
   * it occurs.
   */
  lemma {:induction false} PresentMembers<T>(opts: seq<Option<T>>, x: T)
    ensures x in Present(opts) <==> Some(x) in opts
    ensures multiset(Present(opts))[x] == multiset(opts)[Some(x)]
    ensures IsSubseq(Somes(Present(opts)), opts)
  {
    if opts != [] {
      PresentMembers(opts[1..], x);
      assert Some(x) in opts <==> opts[0] == Some(x) || Some(x) in opts[1..];
      assert opts == [opts[0]] + opts[1..];
      assert multiset(opts) == multiset{opts[0]} + multiset(opts[1..]);
      var rest := Present(opts[1..]);
      if opts[0].Some? {
        assert Somes(Present(opts)) == [opts[0]] + Somes(rest);
        SubseqCons(opts[0], Somes(rest), opts[1..]);
      } else {
        SubseqSkip(opts[0], Somes(rest), opts[1..]);
      }
    }
  }

  /** `entries.map((entry) => mapSeriesEntry(entry, filter))` */
  function MapAll(entries: seq<Json>, filter: Option<EntityType>, maxTranslationDepth: int): seq<Option<SeriesEntry>> {
    seq(|entries|, i requires 0 <= i < |entries| => MapSeriesEntry(Some(entries[i]), filter, maxTranslationDepth))
  }

  /** The entries kept from a response, before the limit. */
  function KeptEntries(payload: Value, filter: Option<EntityType>, maxEntryDepth: int, maxTranslationDepth: int): seq<SeriesEntry> {
    Present(MapAll(ExtractSeriesEntries(payload, 0, maxEntryDepth), filter, maxTranslationDepth))
  }

  /** Every kept entry is normalised and passes the filter. */
  lemma KeptEntriesNormalized(payload: Value, filter: Option<EntityType>, maxEntryDepth: int, maxTranslationDepth: int)
    ensures forall e :: e in KeptEntries(payload, filter, maxEntryDepth, maxTranslationDepth) ==> IsNormalized(e, filter)
  {
    forall e | e in KeptEntries(payload, filter, maxEntryDepth, maxTranslationDepth) ensures IsNormalized(e, filter) {
      PresentMembers(MapAll(ExtractSeriesEntries(payload, 0, maxEntryDepth), filter, maxTranslationDepth), e);
    }
  }

  /** A count below zero read as zero. */
  function Clamp(n: int): nat {
    if n > 0 then n else 0
  }

  /**
   * `normalizeSearchResults`: the entries of the response, mapped, the
   * dropped ones left out, then cut to `limit` (`slice(0, limit)`).
   */
  function NormalizeSearchResults(payload: Value, limit: int, filter: Option<EntityType>,
                                  maxEntryDepth: int, maxTranslationDepth: int): (r: seq<SeriesEntry>)
    ensures limit >= 0 ==> |r| <= limit
    ensures forall e :: e in r ==> IsNormalized(e, filter)
    ensures IsSubseq(r, KeptEntries(payload, filter, maxEntryDepth, maxTranslationDepth))
    ensures limit >= 0 && |KeptEntries(payload, filter, maxEntryDepth, maxTranslationDepth)| >= limit ==> |r| == limit
    ensures |r| <= |KeptEntries(payload, filter, maxEntryDepth, maxTranslationDepth)|
    ensures forall i :: 0 <= i < |r| ==> r[i] == KeptEntries(payload, filter, maxEntryDepth, maxTranslationDepth)[i]
    ensures limit < 0 ==> |r| == Clamp(|KeptEntries(payload, filter, maxEntryDepth, maxTranslationDepth)| + limit)
    ensures limit >= 0 && |KeptEntries(payload, filter, maxEntryDepth, maxTranslationDepth)| < limit ==>
              |r| == |KeptEntries(payload, filter, maxEntryDepth, maxTranslationDepth)|
  {
    var kept := KeptEntries(payload, filter, maxEntryDepth, maxTranslationDepth);
    KeptEntriesNormalized(payload, filter, maxEntryDepth, maxTranslationDepth);
    var r := Take(kept, limit);
    PrefixIsSubseq(kept, |r|);
    SubseqMembers(r, kept);
    r
  }
}
