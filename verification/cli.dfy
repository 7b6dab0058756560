/**
 * One turn of the chat loop (src/cli/main.ts): plan the request, switch to
 * the cached results when the message clearly refers to them, resolve the
 * results (filtering the cache, or searching the catalog), present them and
 * remember them. The model, the catalog, the date parser and the two
 * helpers the loop imports but nobody defines are parameters.
 */
module Cli {
  import opened Wrappers
  import opened Text
  import opened Seqs
  import opened Json
  import opened SeriesFields
  import opened SeriesUtils
  import opened SeriesSearch
  import opened PlannerUtils
  import opened Planner
  import opened ConversationMemory

  /** `reusePhrases` */
  const ReusePhrases: seq<string> := [
    "any of those", "any of them", "those again", "those ones", "these ones", "these shows",
    "these movies", "from this list", "from that list", "from the list", "from the results",
    "the first one", "the second one", "the third one", "tell me more about",
    "more like the last one", "more like that one"]

  /** `phrases.some((phrase) => text.includes(phrase))` */
  function SomePhraseIn(text: string, phrases: seq<string>): (r: bool)
    ensures r <==> exists i :: 0 <= i < |phrases| && Contains(text, phrases[i])
  {
    if phrases == [] then false
    else if Contains(text, phrases[0]) then true
    else
      var r := SomePhraseIn(text, phrases[1..]);
      assert forall i :: 1 <= i < |phrases| ==> phrases[i] == phrases[1..][i - 1];
      r
  }

  /** `shouldForceReuse`: the lowercased message contains one of the reuse phrases. */
  function ShouldForceReuse(message: string): (r: bool)
    ensures r <==> exists i :: 0 <= i < |ReusePhrases| && Contains(Lower(message), ReusePhrases[i])
  {
    SomePhraseIn(Lower(message), ReusePhrases)
  }

  /** The phrase test does not see case. */
  lemma ForceReuseIgnoresCase(message: string)
    ensures ShouldForceReuse(Lower(message)) == ShouldForceReuse(message)
  {
    LowerIdempotent(message);
  }

  /**
   * The override in `runCli`: a fresh-search plan becomes a reuse plan when
   * results are cached and the message refers to them; nothing but the
   * strategy changes, and nothing changes otherwise.
   */
  function ForcedReuse(plan: SearchPlan, state: ConversationState, input: string): (r: SearchPlan)
    ensures r != plan <==> plan.strategy.FreshSearch? && |state.lastResults| > 0 && ShouldForceReuse(input)
    ensures r == plan.(strategy := r.strategy)
    ensures r.strategy.ReuseResults? <==> (plan.strategy.ReuseResults? || (|state.lastResults| > 0 && ShouldForceReuse(input)))
  {
    if plan.strategy.FreshSearch? && |state.lastResults| > 0 && ShouldForceReuse(input) then
      plan.(strategy := ReuseResults)
    else plan
  }

  /** `normalizeEntityTypeForSearch`: only "series" and "movie" name a type to filter on. */
  function NormalizeEntityTypeForSearch(t: Value): (r: Option<EntityType>)
    ensures r == Some(Series) <==> t == Some(JStr(SeriesName))
    ensures r == Some(Movie) <==> t == Some(JStr(MovieName))
    ensures r.Some? ==> t == Some(JStr(EntityTypeName(r.value)))
  {
    if t == Some(JStr(SeriesName)) then Some(Series)
    else if t == Some(JStr(MovieName)) then Some(Movie)
    else None
  }

  /** The `TypeError` message for `v[key]` when `v` is null or undefined. */
  function ReadErrorMessage(v: Value, key: string): string {
    "Cannot read properties of " + (if v.None? then "undefined" else "null") + " (reading '" + key + "')"
  }

  /** `plan.query[key]`: a failure, as in JavaScript, when the plan has no query at all. */
  function QueryProperty(plan: SearchPlan, key: string): (r: Result<Value, string>)
    ensures r.Err? <==> IsNullish(plan.query)
    ensures r.Ok? ==> r.value == Member(plan.query, key)
  {
    match Property(plan.query, key)
    case None => Err(ReadErrorMessage(plan.query, key))
    case Some(v) => Ok(v)
  }

  /** Four decimal digits start at `i`. */
  predicate FourDigitsAt(s: string, i: int) {
    0 <= i && i + 4 <= |s| && AllDigits(s[i..i + 4])
  }

  /** The first place at or after `i` where four decimal digits follow each other. */
  function FourDigitsFrom(s: string, i: nat): (r: Option<nat>)
    ensures r.Some? ==> i <= r.value && FourDigitsAt(s, r.value)
    ensures r.Some? ==> forall j :: i <= j < r.value ==> !FourDigitsAt(s, j)
    ensures r.None? ==> forall j :: i <= j ==> !FourDigitsAt(s, j)
    decreases |s| - i
  {
    if i + 4 > |s| then None
    else if AllDigits(s[i..i + 4]) then Some(i)
    else FourDigitsFrom(s, i + 1)
  }

  /** Four digits start at `i`, and no four digits start earlier: where `/\d{4}/` matches. */
  predicate IsFirstYearRun(s: string, i: int) {
    FourDigitsAt(s, i) && forall j :: 0 <= j < i ==> !FourDigitsAt(s, j)
  }

  /**
   * `parseFirstAiredYear`: nothing for a missing or empty date; the year the
   * date parser reads when it reads one; else the first run of four digits;
   * else nothing. `dateYear` is `new Date(text).getFullYear()`, `None` for NaN.
   */
  function ParseFirstAiredYear(firstAired: Option<string>, dateYear: string -> Option<int>): (r: Option<int>)
    ensures firstAired.None? || firstAired.value == [] ==> r.None?
    ensures firstAired.Some? && firstAired.value != [] && dateYear(firstAired.value).Some? ==>
              r == dateYear(firstAired.value)
    ensures firstAired.Some? && firstAired.value != [] && dateYear(firstAired.value).None? ==>
              && (r.Some? <==> exists i :: FourDigitsAt(firstAired.value, i))
              && (r.Some? ==> exists i :: IsFirstYearRun(firstAired.value, i) && r.value == DigitsValue(firstAired.value[i..i + 4]))
  {
    if firstAired.None? || firstAired.value == [] then None
    else
      var parsed := dateYear(firstAired.value);
      if parsed.Some? then parsed
      else
        var run := FourDigitsFrom(firstAired.value, 0);
        if run.None? then None
        else
          assert IsFirstYearRun(firstAired.value, run.value);
          Some(DigitsValue(firstAired.value[run.value..run.value + 4]))
  }

  const YearUnavailable: string := "Year unavailable"

  /** `deriveYear`: the year the date parser reads, as text, or a placeholder. */
  function DeriveYear(firstAired: Option<string>, dateYear: string -> Option<int>): (r: string)
    ensures r == YearUnavailable <==> firstAired.None? || firstAired.value == [] || dateYear(firstAired.value).None?
    ensures r != YearUnavailable ==> r == IntToString(dateYear(firstAired.value).value)
  {
    if firstAired.None? || firstAired.value == [] then YearUnavailable
    else
      var year := dateYear(firstAired.value);
      if year.None? then YearUnavailable
      else
        var text := IntToString(year.value);
        assert text[0] != YearUnavailable[0];
        text
  }

  datatype Recommendation = Recommendation(id: Num, title: string, overview: string, firstAiredYear: string, entityType: EntityType)

  const OverviewPlaceholder: string := "Overview not available from TVDB."

  /** One entry as a recommendation. */
  function Recommend(entry: SeriesEntry, dateYear: string -> Option<int>): Recommendation {
    Recommendation(entry.id, entry.name, entry.overview.GetOr(OverviewPlaceholder), DeriveYear(entry.firstAired, dateYear), entry.entityType)
  }

  /**
   * `deriveRecommendations`: one recommendation per entry, in order, with
   * the entry's id, name as title and type, and a placeholder for a missing
   * overview.
   */
  function DeriveRecommendations(series: seq<SeriesEntry>, dateYear: string -> Option<int>): (r: seq<Recommendation>)
    ensures |r| == |series|
    ensures forall i :: 0 <= i < |r| ==>
              && r[i].id == series[i].id && r[i].title == series[i].name && r[i].entityType == series[i].entityType
              && (series[i].overview.Some? ==> r[i].overview == series[i].overview.value)
              && (series[i].overview.None? ==> r[i].overview == OverviewPlaceholder)
              && r[i].firstAiredYear == DeriveYear(series[i].firstAired, dateYear)
  {
    seq(|series|, i requires 0 <= i < |series| => Recommend(series[i], dateYear))
  }

  /** `results.map((r) => r.id)` */
  function Ids(series: seq<SeriesEntry>): (r: seq<Num>)
    ensures |r| == |series| && forall i :: 0 <= i < |r| ==> r[i] == series[i].id
  {
    seq(|series|, i requires 0 <= i < |series| => series[i].id)
  }

  /** The ids remembered after a turn are those of the recommendations shown. */
  lemma IdsOfRecommendations(series: seq<SeriesEntry>, dateYear: string -> Option<int>)
    ensures Ids(series) == seq(|series|, i requires 0 <= i < |series| => DeriveRecommendations(series, dateYear)[i].id)
  {
  }

  /** The type filter: entries of type `t`. */
  function OfType(t: EntityType): SeriesEntry -> bool {
    (entry: SeriesEntry) => entry.entityType == t
  }

  /** The year filter: entries whose first-aired year reads as `year` or later. */
  function AiredFrom(year: int, dateYear: string -> Option<int>): SeriesEntry -> bool {
    (entry: SeriesEntry) => var aired := ParseFirstAiredYear(entry.firstAired, dateYear); aired.Some? && aired.value >= year
  }

  /** The year a plan asks for: `plan.query.year` when it is a finite number. */
  function PlanYear(plan: SearchPlan): Option<int> {
    var year := Member(plan.query, "year");
    if IsFiniteNumber(year) then Some(year.value.n.v) else None
  }

  /** The cached entries the plan's type and year accept, untruncated. */
  function Accepted(cached: seq<SeriesEntry>, entityType: Option<EntityType>, year: Option<int>,
                    dateYear: string -> Option<int>): seq<SeriesEntry> {
    var byType := if entityType.Some? then Filter(cached, OfType(entityType.value)) else cached;
    if year.Some? then Filter(byType, AiredFrom(year.value, dateYear)) else byType
  }

  /** What `applyPlanToCachedResults` returns. */
  function CachedSelection(cached: seq<SeriesEntry>, plan: SearchPlan, limit: int,
                           dateYear: string -> Option<int>): Result<seq<SeriesEntry>, string> {
    match QueryProperty(plan, "type")
    case Err(e) => Err(e)
    case Ok(t) =>
      var accepted := Accepted(cached, NormalizeEntityTypeForSearch(t), PlanYear(plan), dateYear);
      Ok(if limit > 0 then Take(accepted, limit) else accepted)
  }

  /** An entry of the requested type, when one is requested, aired in the requested year or later, when one is. */
  predicate Passes(e: SeriesEntry, entityType: Option<EntityType>, year: Option<int>, dateYear: string -> Option<int>) {
    && (entityType.Some? ==> OfType(entityType.value)(e))
    && (year.Some? ==> AiredFrom(year.value, dateYear)(e))
  }

  /**
   * The filters keep, in their order and as often as they occur, exactly
   * the cached entries of the requested type (when "series" or "movie" is
   * requested) whose year reads as the requested one or later (when a year
   * is requested).
   */
  lemma AcceptedFacts(cached: seq<SeriesEntry>, entityType: Option<EntityType>, year: Option<int>,
                      dateYear: string -> Option<int>)
    ensures IsSubseq(Accepted(cached, entityType, year, dateYear), cached)
    ensures forall e :: e in Accepted(cached, entityType, year, dateYear) <==>
              && e in cached
              && (entityType.Some? ==> e.entityType == entityType.value)
              && (year.Some? ==> ParseFirstAiredYear(e.firstAired, dateYear).Some?
                                 && ParseFirstAiredYear(e.firstAired, dateYear).value >= year.value)
    ensures forall e :: multiset(Accepted(cached, entityType, year, dateYear))[e] ==
              if Passes(e, entityType, year, dateYear) then multiset(cached)[e] else 0
    ensures entityType.None? && year.None? ==> Accepted(cached, entityType, year, dateYear) == cached
  {
    var byType := if entityType.Some? then Filter(cached, OfType(entityType.value)) else cached;
    if entityType.Some? {
      FilterFacts(cached, OfType(entityType.value));
    } else {
      SubseqRefl(cached);
    }
    if year.Some? {
      FilterFacts(byType, AiredFrom(year.value, dateYear));
      SubseqTrans(Filter(byType, AiredFrom(year.value, dateYear)), byType, cached);
    }
    AcceptedCounts(cached, entityType, year, dateYear);
  }

  /** Each accepted entry is kept as often as the cache holds it; every other entry not at all. */
  lemma AcceptedCounts(cached: seq<SeriesEntry>, entityType: Option<EntityType>, year: Option<int>,
                       dateYear: string -> Option<int>)
    ensures forall e :: multiset(Accepted(cached, entityType, year, dateYear))[e] ==
              if Passes(e, entityType, year, dateYear) then multiset(cached)[e] else 0
  {
    var byType := if entityType.Some? then Filter(cached, OfType(entityType.value)) else cached;
    if entityType.Some? {
      FilterFacts(cached, OfType(entityType.value));
    }
    if year.Some? {
      FilterFacts(byType, AiredFrom(year.value, dateYear));
    }
  }

  /**
   * `applyPlanToCachedResults` keeps an order-preserving selection of the
   * cache: the accepted entries, cut to `limit` when it is positive (all of
   * them when fewer pass) and not cut otherwise; it fails only when the plan
   * has no query.
   */
  lemma CachedSelectionFacts(cached: seq<SeriesEntry>, plan: SearchPlan, limit: int,
                             dateYear: string -> Option<int>)
    ensures CachedSelection(cached, plan, limit, dateYear).Err? <==> IsNullish(plan.query)
    ensures var r := CachedSelection(cached, plan, limit, dateYear);
            r.Ok? ==>
              var accepted := Accepted(cached, NormalizeEntityTypeForSearch(Member(plan.query, "type")), PlanYear(plan), dateYear);
              && IsSubseq(r.value, cached)
              && (limit > 0 ==> |r.value| <= limit && r.value == accepted[..|r.value|])
              && (limit > 0 && |accepted| >= limit ==> |r.value| == limit)
              && (limit > 0 && |accepted| < limit ==> r.value == accepted)
              && (limit <= 0 ==> r.value == accepted)
  {
    var r := CachedSelection(cached, plan, limit, dateYear);
    if r.Ok? {
      var accepted := Accepted(cached, NormalizeEntityTypeForSearch(Member(plan.query, "type")), PlanYear(plan), dateYear);
      AcceptedFacts(cached, NormalizeEntityTypeForSearch(Member(plan.query, "type")), PlanYear(plan), dateYear);
      if limit > 0 {
        PrefixIsSubseq(accepted, |r.value|);
        SubseqTrans(r.value, accepted, cached);
      }
    }
  }

  /**
   * `applyPlanToCachedResults`: starting from a copy of the cache, keep the
   * requested type, then the requested years, then cut to the limit.
   */
  method ApplyPlanToCachedResults(cached: seq<SeriesEntry>, plan: SearchPlan, limit: int,
                                  dateYear: string -> Option<int>)
    returns (result: Result<seq<SeriesEntry>, string>)
    ensures result == CachedSelection(cached, plan, limit, dateYear)
  {
    var filtered := cached;
    var t := QueryProperty(plan, "type");
    if t.Err? {
      return Err(t.error);
    }
    var entityType := NormalizeEntityTypeForSearch(t.value);
    if entityType.Some? {
      filtered := Filter(filtered, OfType(entityType.value));
    }
    var year := PlanYear(plan);
    if year.Some? {
      filtered := Filter(filtered, AiredFrom(year.value, dateYear));
    }
    if limit > 0 {
      filtered := Take(filtered, limit);
    }
    result := Ok(filtered);
  }

  /**
   * `buildSearchOptions`: the plan's type (only "series" or "movie"),
   * network, company, year, country and language, with the limit.
   */
  function BuildSearchOptions(plan: SearchPlan, limit: int): (r: Result<SearchOptions, string>)
    ensures r.Err? <==> IsNullish(plan.query)
    ensures r.Ok? ==> && r.value.entityType == NormalizeEntityTypeForSearch(Member(plan.query, "type"))
                      && r.value.network == Member(plan.query, "network")
                      && r.value.company == Member(plan.query, "company")
                      && r.value.year == Member(plan.query, "year")
                      && r.value.country == Member(plan.query, "country")
                      && r.value.language == Member(plan.query, "language")
                      && r.value.director.None? && r.value.primaryType.None?
                      && r.value.remoteId.None? && r.value.offset.None?
                      && r.value.limit == Some(JNum(Finite(limit)))
  {
    match QueryProperty(plan, "type")
    case Err(e) => Err(e)
    case Ok(t) =>
      Ok(SearchOptions(
        NormalizeEntityTypeForSearch(t),
        Member(plan.query, "network"), Member(plan.query, "company"), Member(plan.query, "year"),
        Member(plan.query, "country"), Member(plan.query, "language"),
        None, None, None, None, Some(JNum(Finite(limit)))))
  }

  /**
   * Everything a turn consults that lies outside the core: the planner model
   * and `JSON.parse`, the two undefined helpers `deriveSearchLimit` and
   * `deriveSearchTerm`, the catalog, the reading of a raw catalog entry at
   * its declared type, the date parser, the summarising model, and the two
   * constants of the fallback queries.
   */
  datatype Environment = Environment(
    invoke: (string, ConversationState) -> Result<Value, string>,
    parse: string -> Option<Json>,
    searchLimit: SearchPlan -> int,
    searchTerm: SearchPlan -> string,
    catalog: seq<Field> -> CatalogReply,
    asSeries: Json -> SeriesEntry,
    dateYear: string -> Option<int>,
    summarize: (string, SearchPlan, seq<SeriesEntry>) -> Result<string, string>,
    minWordLength: nat,
    prefixWordCount: nat)

  /** The raw entries of a search, read at their declared type. */
  function AsSeries(raw: Result<seq<Json>, string>, asSeries: Json -> SeriesEntry): (r: Result<seq<SeriesEntry>, string>)
    ensures r.Err? <==> raw.Err?
    ensures r.Err? ==> r.error == raw.error
    ensures r.Ok? ==> |r.value| == |raw.value| && forall i :: 0 <= i < |r.value| ==> r.value[i] == asSeries(raw.value[i])
  {
    if raw.Err? then Err(raw.error)
    else Ok(seq(|raw.value|, i requires 0 <= i < |raw.value| => asSeries(raw.value[i])))
  }

  /** Reuse applies: the plan asks for it and there are cached results. */
  predicate ReusesCache(plan: SearchPlan, state: ConversationState) {
    plan.strategy == ReuseResults && |state.lastResults| > 0
  }

  /**
   * What `resolveResults` yields: the filtered cache when the plan reuses it,
   * the failure of building the search options when the plan has no query,
   * and otherwise the entries of a catalog search for `searchTerm`.
   */
  function Resolved(plan: SearchPlan, state: ConversationState, limit: int, searchTerm: string, env: Environment)
    : (r: Result<seq<SeriesEntry>, string>)
    ensures ReusesCache(plan, state) ==> r == CachedSelection(state.lastResults, plan, limit, env.dateYear)
    ensures !ReusesCache(plan, state) && IsNullish(plan.query) ==> r.Err? && r == Err(BuildSearchOptions(plan, limit).error)
    ensures !ReusesCache(plan, state) && !IsNullish(plan.query) ==>
              r == AsSeries(Search(searchTerm, [], env.catalog, env.minWordLength, env.prefixWordCount).result, env.asSeries)
  {
    if ReusesCache(plan, state) then CachedSelection(state.lastResults, plan, limit, env.dateYear)
    else if BuildSearchOptions(plan, limit).Err? then Err(BuildSearchOptions(plan, limit).error)
    else AsSeries(Search(searchTerm, [], env.catalog, env.minWordLength, env.prefixWordCount).result, env.asSeries)
  }

  /**
   * `resolveResults`: the cached results, filtered, when the plan reuses
   * them and there are some, without any request; otherwise a catalog
   * search. The search gets the limit where it expects its options, so the
   * options built from the plan never reach it and every request carries
   * the candidate only.
   */
  method ResolveResults(plan: SearchPlan, state: ConversationState, limit: int, searchTerm: string, env: Environment)
    returns (result: Result<seq<SeriesEntry>, string>, ghost sent: seq<string>)
    ensures result == Resolved(plan, state, limit, searchTerm, env)
    ensures ReusesCache(plan, state) ==> result == CachedSelection(state.lastResults, plan, limit, env.dateYear)
    ensures !ReusesCache(plan, state) && IsNullish(plan.query) ==> result.Err?
    ensures !ReusesCache(plan, state) && !IsNullish(plan.query) ==>
              result == AsSeries(Search(searchTerm, [], env.catalog, env.minWordLength, env.prefixWordCount).result, env.asSeries)
    ensures ReusesCache(plan, state) || IsNullish(plan.query) ==> sent == []
    ensures !ReusesCache(plan, state) && !IsNullish(plan.query) ==>
              sent == Search(searchTerm, [], env.catalog, env.minWordLength, env.prefixWordCount).sent
  {
    if plan.strategy == ReuseResults && |state.lastResults| > 0 {
      result := ApplyPlanToCachedResults(state.lastResults, plan, limit, env.dateYear);
      return result, [];
    }
    var searchOptions := BuildSearchOptions(plan, limit);
    if searchOptions.Err? {
      return Err(searchOptions.error), [];
    }
    var raw;
    raw, sent := SearchSeries(searchTerm, [], env.catalog, env.minWordLength, env.prefixWordCount);
    result := AsSeries(raw, env.asSeries);
  }

  /** How a turn ends, as the user sees it. */
  datatype TurnOutcome =
    | Skipped
    | Exited
    | NoMatches(suggestion: Option<string>)
    | Shown(summary: string, next: seq<string>)
    | Errored(message: string)

  /** The memory update after a turn that showed `results` for `searchTerm`. */
  function Remembered(searchTerm: string, results: seq<SeriesEntry>): (u: StateUpdate)
    ensures u.lastSearchTerm == Some(Some(searchTerm))
    ensures u.lastResultIds == Some(Ids(results)) && u.lastResults == Some(results)
    ensures |results| > 0 ==> u.lastResultTitle == Some(Some(results[0].name))
  {
    StateUpdate(Some(Some(searchTerm)), Some(if |results| > 0 then Some(results[0].name) else None),
                Some(Ids(results)), Some(results))
  }

  /** After a turn that showed results, the memory holds what that turn showed, whatever it held before. */
  lemma RememberedState(state: ConversationState, searchTerm: string, results: seq<SeriesEntry>)
    requires |results| > 0
    ensures Updated(state, Remembered(searchTerm, results)) ==
              ConversationState(Some(searchTerm), Some(results[0].name), Ids(results), results)
  {
  }

  /** The plan a turn works with: the planner's, switched to reuse when the message asks for it. */
  function TurnPlan(trimmedInput: string, state: ConversationState, env: Environment): (r: Result<SearchPlan, string>)
    ensures r.Err? <==> Planned(trimmedInput, state, env.invoke, env.parse).Err?
    ensures r.Err? ==> r == Planned(trimmedInput, state, env.invoke, env.parse)
    ensures r.Ok? ==> r.value == ForcedReuse(Planned(trimmedInput, state, env.invoke, env.parse).value, state, trimmedInput)
  {
    var planned := Planned(trimmedInput, state, env.invoke, env.parse);
    if planned.Err? then planned else Ok(ForcedReuse(planned.value, state, trimmedInput))
  }

  /** How one turn ends, the results it resolved and the search term it derived. */
  datatype Turn = Turn(outcome: TurnOutcome, results: seq<SeriesEntry>, searchTerm: string)

  /**
   * A turn from the state it starts in: skipped, exited, or planned,
   * resolved and summarised, the first failure ending it as an error. The
   * search term and results are those of the turn's plan, and results are
   * shown exactly when every step succeeded and there were some.
   */
  function TurnOf(userInput: string, state: ConversationState, env: Environment): (t: Turn)
    ensures t.outcome.Skipped? <==> Trim(userInput) == []
    ensures t.outcome.Exited? <==> Trim(userInput) != [] && Lower(Trim(userInput)) == "exit"
    ensures var input := Trim(userInput);
            var plan := TurnPlan(input, state, env);
            && (plan.Err? && input != [] && Lower(input) != "exit" ==> t.outcome == Errored(plan.error))
            && (plan.Ok? && input != [] && Lower(input) != "exit" ==>
                  t.searchTerm == env.searchTerm(plan.value)
                  && var resolved := Resolved(plan.value, state, env.searchLimit(plan.value), t.searchTerm, env);
                     && (resolved.Ok? ==> t.results == resolved.value)
                     && (resolved.Err? ==> t.outcome == Errored(resolved.error))
                     && (resolved.Ok? && resolved.value == [] ==>
                           t.outcome == NoMatches(if |plan.value.followUpSuggestions| > 0
                                                  then Some(plan.value.followUpSuggestions[0]) else None))
                     && (resolved.Ok? && resolved.value != [] && env.summarize(input, plan.value, resolved.value).Err? ==>
                           t.outcome == Errored(env.summarize(input, plan.value, resolved.value).error))
                     && (t.outcome.Shown? <==> resolved.Ok? && resolved.value != []
                                               && env.summarize(input, plan.value, resolved.value).Ok?)
                     && (t.outcome.Shown? ==> t.outcome == Shown(env.summarize(input, plan.value, resolved.value).value,
                                                                  plan.value.followUpSuggestions)))
    ensures t.outcome.NoMatches? ==> t.results == []
    ensures t.outcome.Shown? ==> t.results != []
  {
    var input := Trim(userInput);
    if input == [] then Turn(Skipped, [], [])
    else if Lower(input) == "exit" then Turn(Exited, [], [])
    else
      var plan := TurnPlan(input, state, env);
      if plan.Err? then Turn(Errored(plan.error), [], [])
      else
        var searchTerm := env.searchTerm(plan.value);
        var resolved := Resolved(plan.value, state, env.searchLimit(plan.value), searchTerm, env);
        if resolved.Err? then Turn(Errored(resolved.error), [], searchTerm)
        else if |resolved.value| == 0 then
          Turn(NoMatches(if |plan.value.followUpSuggestions| > 0 then Some(plan.value.followUpSuggestions[0]) else None),
               resolved.value, searchTerm)
        else
          var summary := env.summarize(input, plan.value, resolved.value);
          if summary.Err? then Turn(Errored(summary.error), resolved.value, searchTerm)
          else Turn(Shown(summary.value, plan.value.followUpSuggestions), resolved.value, searchTerm)
  }

  /** The memory after a turn: what it showed, when it showed something, else unchanged. */
  function AfterTurn(state: ConversationState, t: Turn): (r: ConversationState)
    ensures !t.outcome.Shown? ==> r == state
    ensures t.outcome.Shown? ==> r == Updated(state, Remembered(t.searchTerm, t.results))
  {
    if t.outcome.Shown? then Updated(state, Remembered(t.searchTerm, t.results)) else state
  }

  /**
   * One pass of the `runCli` loop body for `userInput`: a blank line is
   * skipped, "exit" in any case ends the loop; otherwise the request is
   * planned, possibly switched to reuse, resolved and summarised, and only
   * a turn that shows results updates the memory. Any failure is reported
   * and leaves the memory as it was.
   */
  method RunTurn(userInput: string, memory: Store, env: Environment)
    returns (outcome: TurnOutcome, results: seq<SeriesEntry>, searchTerm: string)
    modifies memory
    ensures Trim(userInput) == [] ==> outcome == Skipped
    ensures Trim(userInput) != [] ==> !outcome.Skipped?
    ensures Trim(userInput) != [] && Lower(Trim(userInput)) == "exit" ==> outcome == Exited
    ensures outcome.Exited? ==> Lower(Trim(userInput)) == "exit"
    ensures outcome.Shown? ==>
              |results| > 0 && memory.State() == Updated(old(memory.State()), Remembered(searchTerm, results))
    ensures outcome.NoMatches? ==> results == []
    ensures !outcome.Shown? ==> memory.State() == old(memory.State())
    ensures outcome == TurnOf(userInput, old(memory.State()), env).outcome
    ensures results == TurnOf(userInput, old(memory.State()), env).results
    ensures searchTerm == TurnOf(userInput, old(memory.State()), env).searchTerm
    ensures memory.State() == AfterTurn(old(memory.State()), TurnOf(userInput, old(memory.State()), env))
  {
    results, searchTerm := [], [];
    var trimmedInput := Trim(userInput);
    if |trimmedInput| == 0 {
      return Skipped, results, searchTerm;
    }
    if Lower(trimmedInput) == "exit" {
      return Exited, results, searchTerm;
    }
    var state := memory.Get();
    var planned, asked := PlanSearch(trimmedInput, state, env.invoke, env.parse);
    if planned.Err? {
      return Errored(planned.error), results, searchTerm;
    }
    var plan := ForcedReuse(planned.value, state, trimmedInput);
    var limit := env.searchLimit(plan);
    searchTerm := env.searchTerm(plan);
    var resolved, sent := ResolveResults(plan, state, limit, searchTerm, env);
    if resolved.Err? {
      return Errored(resolved.error), results, searchTerm;
    }
    results := resolved.value;
    var recommendations := DeriveRecommendations(results, env.dateYear);
    if |recommendations| == 0 {
      var suggestion := if |plan.followUpSuggestions| > 0 then Some(plan.followUpSuggestions[0]) else None;
      return NoMatches(suggestion), results, searchTerm;
    }
    var summary := env.summarize(trimmedInput, plan, results);
    if summary.Err? {
      return Errored(summary.error), results, searchTerm;
    }
    memory.Update(Remembered(searchTerm, results));
    outcome := Shown(summary.value, plan.followUpSuggestions);
  }

  /** The outcomes of the turns of a session and the memory it leaves. */
  datatype SessionEnd = SessionEnd(outcomes: seq<TurnOutcome>, state: ConversationState)

  /** The turns of the chat loop in `env`, as one function of the line and the memory. */
  function Turns(env: Environment): (string, ConversationState) -> Turn {
    (userInput, state) => TurnOf(userInput, state, env)
  }

  /**
   * A session over `inputs` from the memory `state`: one turn per line,
   * each starting from the memory the previous one left, stopping after
   * the turn that exits.
   */
  function Session(inputs: seq<string>, state: ConversationState, turn: (string, ConversationState) -> Turn): (r: SessionEnd)
    ensures |r.outcomes| <= |inputs|
    decreases |inputs|
  {
    if inputs == [] then SessionEnd([], state)
    else
      var t := turn(inputs[0], state);
      var next := AfterTurn(state, t);
      if t.outcome.Exited? then SessionEnd([t.outcome], next)
      else
        var rest := Session(inputs[1..], next, turn);
        SessionEnd([t.outcome] + rest.outcomes, rest.state)
  }

  /** The session from line `i` on: that line's turn, then, unless it exits, the session from the next line. */
  lemma SessionStep(inputs: seq<string>, i: int, state: ConversationState, turn: (string, ConversationState) -> Turn)
    requires 0 <= i < |inputs|
    ensures var t := turn(inputs[i], state);
            var rest := Session(inputs[i + 1..], AfterTurn(state, t), turn);
            Session(inputs[i..], state, turn)
              == if t.outcome.Exited? then SessionEnd([t.outcome], AfterTurn(state, t))
                 else SessionEnd([t.outcome] + rest.outcomes, rest.state)
  {
    assert inputs[i..][0] == inputs[i];
    assert inputs[i..][1..] == inputs[i + 1..];
  }

  /** A session of the chat loop advances by the turn just run. */
  lemma SessionAdvance(inputs: seq<string>, i: int, before: ConversationState, t: Turn, after: ConversationState, env: Environment)
    requires 0 <= i < |inputs|
    requires t == TurnOf(inputs[i], before, env) && after == AfterTurn(before, t)
    ensures var rest := Session(inputs[i + 1..], after, Turns(env));
            Session(inputs[i..], before, Turns(env))
              == if t.outcome.Exited? then SessionEnd([t.outcome], after)
                 else SessionEnd([t.outcome] + rest.outcomes, rest.state)
  {
    SessionStep(inputs, i, before, Turns(env));
    assert Turns(env)(inputs[i], before) == t;
  }

  /** A session that shows nothing leaves the memory as it found it. */
  lemma {:induction false} SessionWithoutShownKeepsMemory(inputs: seq<string>, state: ConversationState,
                                                          turn: (string, ConversationState) -> Turn)
    ensures var r := Session(inputs, state, turn);
            (forall k :: 0 <= k < |r.outcomes| ==> !r.outcomes[k].Shown?) ==> r.state == state
    decreases |inputs|
  {
    if inputs != [] {
      var t := turn(inputs[0], state);
      var r := Session(inputs, state, turn);
      assert r.outcomes[0] == t.outcome;
      if !t.outcome.Shown? {
        assert AfterTurn(state, t) == state;
        if !t.outcome.Exited? {
          var rest := Session(inputs[1..], state, turn);
          SessionWithoutShownKeepsMemory(inputs[1..], state, turn);
          assert forall k :: 0 <= k < |rest.outcomes| ==> rest.outcomes[k] == r.outcomes[k + 1];
        }
      }
    }
  }

  /**
   * A session runs a turn for every line until one exits: no outcome but
   * the last is an exit, and a session that stops early stops at one.
   */
  lemma {:induction false} SessionStopsAtExit(inputs: seq<string>, state: ConversationState,
                                              turn: (string, ConversationState) -> Turn)
    ensures var r := Session(inputs, state, turn);
            && (forall k :: 0 <= k < |r.outcomes| - 1 ==> !r.outcomes[k].Exited?)
            && (|r.outcomes| < |inputs| ==> r.outcomes != [] && r.outcomes[|r.outcomes| - 1].Exited?)
    decreases |inputs|
  {
    if inputs != [] {
      var t := turn(inputs[0], state);
      if !t.outcome.Exited? {
        var next := AfterTurn(state, t);
        SessionStopsAtExit(inputs[1..], next, turn);
        ExitStaysLast(t.outcome, Session(inputs[1..], next, turn).outcomes, |inputs| - 1);
      }
    }
  }

  /** An outcome that is not an exit, put in front, keeps an exit only at the end. */
  lemma ExitStaysLast(first: TurnOutcome, rest: seq<TurnOutcome>, n: nat)
    requires !first.Exited?
    requires forall k :: 0 <= k < |rest| - 1 ==> !rest[k].Exited?
    requires |rest| < n ==> rest != [] && rest[|rest| - 1].Exited?
    ensures var r := [first] + rest;
            && (forall k :: 0 <= k < |r| - 1 ==> !r[k].Exited?)
            && (|r| < n + 1 ==> r != [] && r[|r| - 1].Exited?)
  {
    var r := [first] + rest;
    assert forall k :: 0 <= k < |rest| ==> rest[k] == r[k + 1];
  }

  /** A turn of the chat loop is skipped exactly when its line is blank. */
  lemma TurnsSkipBlankLines(env: Environment)
    ensures forall userInput, state :: Turns(env)(userInput, state).outcome.Skipped? <==> Trim(userInput) == []
  {
  }

  /** When turns skip exactly the blank lines, so does a session of them. */
  lemma {:induction false} SessionSkipsBlankLines(inputs: seq<string>, state: ConversationState,
                                                  turn: (string, ConversationState) -> Turn)
    requires forall userInput, st :: turn(userInput, st).outcome.Skipped? <==> Trim(userInput) == []
    ensures var r := Session(inputs, state, turn);
            forall k :: 0 <= k < |r.outcomes| ==> (Trim(inputs[k]) == [] <==> r.outcomes[k].Skipped?)
    decreases |inputs|
  {
    if inputs != [] {
      var t := turn(inputs[0], state);
      var r := Session(inputs, state, turn);
      assert r.outcomes[0] == t.outcome;
      if !t.outcome.Exited? {
        var next := AfterTurn(state, t);
        SessionSkipsBlankLines(inputs[1..], next, turn);
        var rest := Session(inputs[1..], next, turn);
        assert forall k :: 0 <= k < |rest.outcomes| ==> rest.outcomes[k] == r.outcomes[k + 1] && inputs[1..][k] == inputs[k + 1];
      }
    }
  }

  /** The outcomes of a session of the chat loop: at most one per line, blank lines skipped, an exit last. */
  lemma SessionOutcomes(inputs: seq<string>, state: ConversationState, env: Environment, outcomes: seq<TurnOutcome>)
    requires outcomes == Session(inputs, state, Turns(env)).outcomes
    ensures |outcomes| <= |inputs|
    ensures forall k :: 0 <= k < |outcomes| - 1 ==> !outcomes[k].Exited?
    ensures |outcomes| < |inputs| ==> |outcomes| > 0 && outcomes[|outcomes| - 1].Exited?
    ensures forall k :: 0 <= k < |outcomes| ==> (Trim(inputs[k]) == [] <==> outcomes[k].Skipped?)
  {
    SessionStopsAtExit(inputs, state, Turns(env));
    TurnsSkipBlankLines(env);
    SessionSkipsBlankLines(inputs, state, Turns(env));
  }

  /**
   * `runCli` over a finite series of input lines: each line is one turn,
   * from the memory the earlier turns left, and the loop stops after the
   * turn that exits.
   */
  method RunCli(inputs: seq<string>, memory: Store, env: Environment) returns (outcomes: seq<TurnOutcome>)
    modifies memory
    ensures outcomes == Session(inputs, old(memory.State()), Turns(env)).outcomes
    ensures memory.State() == Session(inputs, old(memory.State()), Turns(env)).state
  {
    ghost var start := memory.State();
    outcomes := [];
    var i := 0;
    while i < |inputs|
      invariant 0 <= i <= |inputs|
      invariant Session(inputs, start, Turns(env))
                == SessionEnd(outcomes + Session(inputs[i..], memory.State(), Turns(env)).outcomes,
                              Session(inputs[i..], memory.State(), Turns(env)).state)
    {
      ghost var before := memory.State();
      var outcome, results, searchTerm := RunTurn(inputs[i], memory, env);
      SessionAdvance(inputs, i, before, Turn(outcome, results, searchTerm), memory.State(), env);
      AppendAssoc(outcomes, [outcome], Session(inputs[i + 1..], memory.State(), Turns(env)).outcomes);
      outcomes := outcomes + [outcome];
      if outcome.Exited? {
        return;
      }
      i := i + 1;
    }
    assert inputs[i..] == [];
    assert Session(inputs[i..], memory.State(), Turns(env)) == SessionEnd([], memory.State());
    AppendNil(outcomes);
  }
}
