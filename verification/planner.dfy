/**
 * The guards of the planner (src/llm/planner/index.ts): a blank message is
 * refused before the model is asked; an empty or unparsable reply is
 * refused; a plan that reuses earlier results has its missing query, `q`,
 * `limit` and `offset` filled in from the conversation memory before the
 * plan is normalised.
 */
module Planner {
  import opened Wrappers
  import opened Text
  import opened Json
  import opened SeriesFields
  import opened PlannerUtils
  import opened MessageUtils
  import opened ConversationMemory

  /** `defaultSearchLimit` */
  const DefaultSearchLimit: nat := 6

  const EmptyQueryMessage: string := "Please provide a search query."
  const EmptyPlanMessage: string := "OpenAI returned an empty plan."
  const InvalidJsonMessage: string := "OpenAI returned invalid JSON for the search plan."

  /*
   * `isNonEmptyString` is `SeriesFields.UsableString` (a string that does
   * not trim to empty) and `isFiniteNumber` is `Json.IsFiniteNumber`.
   */

  /** `conversationState.lastSearchTerm?.trim()` */
  function LastTerm(state: ConversationState): (r: Option<string>)
    ensures r.Some? ==> state.lastSearchTerm.Some? && r.value == Trim(state.lastSearchTerm.value)
    ensures state.lastSearchTerm.Some? ==> r.Some?
  {
    if state.lastSearchTerm.Some? then Some(Trim(state.lastSearchTerm.value)) else None
  }

  /** `conversationState.lastResults.length || defaultSearchLimit` */
  function FallbackLimit(state: ConversationState): (n: nat)
    ensures n > 0
    ensures |state.lastResults| > 0 ==> n == |state.lastResults|
    ensures |state.lastResults| == 0 ==> n == DefaultSearchLimit
  {
    if |state.lastResults| > 0 then |state.lastResults| else DefaultSearchLimit
  }

  /**
   * The three conditions under which the reply is patched: it is an object,
   * its strategy is exactly "reuse-results", and the last search term does
   * not trim to empty.
   */
  predicate PatchApplies(parsed: Value, state: ConversationState) {
    && parsed.Some? && parsed.value.JObj?
    && Member(parsed, "strategy") == Some(JStr(ReuseResultsName))
    && LastTerm(state).Some? && LastTerm(state).value != []
  }

  /** The query record the patch fills in: the plan's own when it is an object, else a new empty one. */
  function QueryRecord(query: Value): seq<Field> {
    if query.Some? && query.value.JObj? then query.value.fields else []
  }

  /** One back-fill: the record kept as it is when `keep` holds, else with `key` set to `value`. */
  function Fill(fields: seq<Field>, key: string, keep: bool, value: Json): seq<Field> {
    if keep then fields else SetField(fields, key, value)
  }

  /** The query record after the four back-fills. */
  function FilledQuery(query: seq<Field>, term: string, limit: nat): seq<Field> {
    var a := Fill(query, "query", UsableString(Get(query, "query")), JStr(term));
    var b := Fill(a, "q", UsableString(Get(a, "q")), JStr(term));
    var c := Fill(b, "limit", IsFiniteNumber(Get(b, "limit")), JNum(Finite(limit)));
    Fill(c, "offset", IsFiniteNumber(Get(c, "offset")), JNum(Finite(0)))
  }

  /** What `patchMissingQuery` returns. */
  function Patched(parsed: Value, state: ConversationState): Value {
    if !PatchApplies(parsed, state) then parsed
    else
      var query := Member(parsed, "query");
      if query.Some? && query.value.JArr? then parsed
      else
        var filled := FilledQuery(QueryRecord(query), LastTerm(state).value, FallbackLimit(state));
        Some(JObj(SetField(parsed.value.fields, "query", JObj(filled))))
  }

  /**
   * `patchMissingQuery`: an object asking to reuse results, while a last
   * search term is known, gets its query record completed in place; any
   * other value comes back as it was.
   */
  method PatchMissingQuery(parsed: Value, state: ConversationState) returns (patched: Value)
    ensures patched == Patched(parsed, state)
  {
    if !Truthy(parsed) || !(parsed.value.JObj? || parsed.value.JArr?) {
      return parsed;
    }
    if Member(parsed, "strategy") != Some(JStr(ReuseResultsName)) {
      return parsed;
    }
    var lastSearchTerm := LastTerm(state);
    if lastSearchTerm.None? || lastSearchTerm.value == [] {
      return parsed;
    }
    var record := parsed.value.fields;
    var query := Get(record, "query");
    if query.Some? && query.value.JArr? {
      return parsed;
    }
    var queryRecord := if Truthy(query) && query.value.JObj? then query.value.fields else [];
    if !UsableString(Get(queryRecord, "query")) {
      queryRecord := SetField(queryRecord, "query", JStr(lastSearchTerm.value));
    }
    if !UsableString(Get(queryRecord, "q")) {
      queryRecord := SetField(queryRecord, "q", JStr(lastSearchTerm.value));
    }
    if !IsFiniteNumber(Get(queryRecord, "limit")) {
      queryRecord := SetField(queryRecord, "limit", JNum(Finite(FallbackLimit(state))));
    }
    if !IsFiniteNumber(Get(queryRecord, "offset")) {
      queryRecord := SetField(queryRecord, "offset", JNum(Finite(0)));
    }
    record := SetField(record, "query", JObj(queryRecord));
    patched := Some(JObj(record));
  }

  /** Without all three conditions the reply is returned untouched. */
  lemma PatchIdentity(parsed: Value, state: ConversationState)
    ensures !PatchApplies(parsed, state) ==> Patched(parsed, state) == parsed
  {
  }

  /** A back-fill sets at most its own key. */
  lemma FillSame(fields: seq<Field>, key: string, keep: bool, value: Json)
    ensures Get(Fill(fields, key, keep, value), key) == if keep then Get(fields, key) else Some(value)
  {
    if !keep {
      GetSetSame(fields, key, value);
    }
  }

  /** A back-fill leaves the other keys alone. */
  lemma FillOther(fields: seq<Field>, key: string, keep: bool, value: Json, other: string)
    requires other != key
    ensures Get(Fill(fields, key, keep, value), other) == Get(fields, other)
  {
    if !keep {
      GetSetOther(fields, key, value, other);
    }
  }

  /**
   * The back-fills of the query record: a `query` or `q` that is not a
   * non-blank string becomes the term, a `limit` that is not a finite
   * number becomes the fallback limit, an `offset` that is not a finite
   * number becomes 0; every value that passes its test is left as it was.
   */
  lemma FilledQueryFields(query: seq<Field>, term: string, limit: nat)
    ensures var r := FilledQuery(query, term, limit);
            && Get(r, "query") == (if UsableString(Get(query, "query")) then Get(query, "query") else Some(JStr(term)))
            && Get(r, "q") == (if UsableString(Get(query, "q")) then Get(query, "q") else Some(JStr(term)))
            && Get(r, "limit") == (if IsFiniteNumber(Get(query, "limit")) then Get(query, "limit") else Some(JNum(Finite(limit))))
            && Get(r, "offset") == (if IsFiniteNumber(Get(query, "offset")) then Get(query, "offset") else Some(JNum(Finite(0))))
  {
    var keepQuery := UsableString(Get(query, "query"));
    var a := Fill(query, "query", keepQuery, JStr(term));
    FillSame(query, "query", keepQuery, JStr(term));
    FillOther(query, "query", keepQuery, JStr(term), "q");
    FillOther(query, "query", keepQuery, JStr(term), "limit");
    FillOther(query, "query", keepQuery, JStr(term), "offset");
    var keepQ := UsableString(Get(a, "q"));
    var b := Fill(a, "q", keepQ, JStr(term));
    FillSame(a, "q", keepQ, JStr(term));
    FillOther(a, "q", keepQ, JStr(term), "query");
    FillOther(a, "q", keepQ, JStr(term), "limit");
    FillOther(a, "q", keepQ, JStr(term), "offset");
    var keepLimit := IsFiniteNumber(Get(b, "limit"));
    var c := Fill(b, "limit", keepLimit, JNum(Finite(limit)));
    FillSame(b, "limit", keepLimit, JNum(Finite(limit)));
    FillOther(b, "limit", keepLimit, JNum(Finite(limit)), "query");
    FillOther(b, "limit", keepLimit, JNum(Finite(limit)), "q");
    FillOther(b, "limit", keepLimit, JNum(Finite(limit)), "offset");
    var keepOffset := IsFiniteNumber(Get(c, "offset"));
    FillSame(c, "offset", keepOffset, JNum(Finite(0)));
    FillOther(c, "offset", keepOffset, JNum(Finite(0)), "query");
    FillOther(c, "offset", keepOffset, JNum(Finite(0)), "q");
    FillOther(c, "offset", keepOffset, JNum(Finite(0)), "limit");
  }

  /** The back-fills leave every other property of the query record alone. */
  lemma FilledQueryOthers(query: seq<Field>, term: string, limit: nat, k: string)
    requires k != "query" && k != "q" && k != "limit" && k != "offset"
    ensures Get(FilledQuery(query, term, limit), k) == Get(query, k)
  {
    var keepQuery := UsableString(Get(query, "query"));
    var a := Fill(query, "query", keepQuery, JStr(term));
    FillOther(query, "query", keepQuery, JStr(term), k);
    var keepQ := UsableString(Get(a, "q"));
    var b := Fill(a, "q", keepQ, JStr(term));
    FillOther(a, "q", keepQ, JStr(term), k);
    var keepLimit := IsFiniteNumber(Get(b, "limit"));
    var c := Fill(b, "limit", keepLimit, JNum(Finite(limit)));
    FillOther(b, "limit", keepLimit, JNum(Finite(limit)), k);
    FillOther(c, "offset", IsFiniteNumber(Get(c, "offset")), JNum(Finite(0)), k);
  }

  /**
   * When the patch applies (and the query is not an array), only the
   * `query` property of the reply changes, and it becomes an object.
   */
  lemma PatchTouchesOnlyQuery(parsed: Value, state: ConversationState)
    requires PatchApplies(parsed, state)
    requires !(Member(parsed, "query").Some? && Member(parsed, "query").value.JArr?)
    ensures var p := Patched(parsed, state);
            && p.Some? && p.value.JObj?
            && Member(p, "query") == Some(JObj(FilledQuery(QueryRecord(Member(parsed, "query")), LastTerm(state).value, FallbackLimit(state))))
            && forall k :: k != "query" ==> Member(p, k) == Member(parsed, k)
  {
    var filled := JObj(FilledQuery(QueryRecord(Member(parsed, "query")), LastTerm(state).value, FallbackLimit(state)));
    GetSetSame(parsed.value.fields, "query", filled);
    forall k | k != "query"
      ensures Member(Patched(parsed, state), k) == Member(parsed, k)
    {
      GetSetOther(parsed.value.fields, "query", filled, k);
    }
  }

  /**
   * A patched reply still asks to reuse results after normalisation, and its
   * query carries a non-blank search term.
   */
  lemma PatchedPlanReuses(parsed: Value, state: ConversationState)
    requires PatchApplies(parsed, state)
    requires !(Member(parsed, "query").Some? && Member(parsed, "query").value.JArr?)
    ensures NormalizeSearchPlan(Patched(parsed, state)).Ok?
    ensures NormalizeSearchPlan(Patched(parsed, state)).value.strategy == ReuseResults
    ensures UsableString(Member(NormalizeSearchPlan(Patched(parsed, state)).value.query, "query"))
  {
    var term := LastTerm(state).value;
    var filled := FilledQuery(QueryRecord(Member(parsed, "query")), term, FallbackLimit(state));
    var p := Patched(parsed, state);
    assert p == Some(JObj(SetField(parsed.value.fields, "query", JObj(filled))));
    GetSetSame(parsed.value.fields, "query", JObj(filled));
    GetSetOther(parsed.value.fields, "query", JObj(filled), "strategy");
    FilledQueryFields(QueryRecord(Member(parsed, "query")), term, FallbackLimit(state));
    TrimOfTrimmed(term);
    assert UsableString(Get(filled, "query"));
  }

  /**
   * What `planSearch` returns: a blank message fails before the model is
   * asked; the model's reply, flattened to text and trimmed, must be
   * non-empty and must parse; the parsed value is patched and normalised.
   * `invoke` is the model call (given the trimmed message and the state it
   * is sent with) and `parse` is `JSON.parse`, `None` when it throws.
   */
  function Planned(userMessage: string, state: ConversationState,
                   invoke: (string, ConversationState) -> Result<Value, string>,
                   parse: string -> Option<Json>): (r: Result<SearchPlan, string>)
    ensures Trim(userMessage) == [] ==> r == Err(EmptyQueryMessage)
    ensures Trim(userMessage) != [] ==>
              var reply := invoke(Trim(userMessage), state);
              && (reply.Err? ==> r == Err(reply.error))
              && (reply.Ok? && Trim(ExtractMessageText(reply.value)) == [] ==> r == Err(EmptyPlanMessage))
              && (reply.Ok? && Trim(ExtractMessageText(reply.value)) != [] ==>
                    var parsed := parse(Trim(ExtractMessageText(reply.value)));
                    && (parsed.None? ==> r == Err(InvalidJsonMessage))
                    && (parsed.Some? ==> r == NormalizeSearchPlan(Patched(parsed, state))))
  {
    var trimmedMessage := Trim(userMessage);
    if trimmedMessage == [] then Err(EmptyQueryMessage)
    else
      var reply := invoke(trimmedMessage, state);
      if reply.Err? then Err(reply.error)
      else
        var rawOutput := Trim(ExtractMessageText(reply.value));
        if rawOutput == [] then Err(EmptyPlanMessage)
        else
          var parsed := parse(rawOutput);
          if parsed.None? then Err(InvalidJsonMessage)
          else NormalizeSearchPlan(Patched(parsed, state))
  }

  /**
   * `planSearch`, run as the source runs it; `asked` records whether the
   * model was called.
   */
  method PlanSearch(userMessage: string, state: ConversationState,
                    invoke: (string, ConversationState) -> Result<Value, string>,
                    parse: string -> Option<Json>)
    returns (result: Result<SearchPlan, string>, ghost asked: bool)
    ensures result == Planned(userMessage, state, invoke, parse)
    ensures asked <==> Trim(userMessage) != []
  {
    asked := false;
    var trimmedMessage := Trim(userMessage);
    if |trimmedMessage| == 0 {
      return Err(EmptyQueryMessage), asked;
    }
    asked := true;
    var response := invoke(trimmedMessage, state);
    if response.Err? {
      return Err(response.error), asked;
    }
    var rawOutput := Trim(ExtractMessageText(response.value));
    if rawOutput == [] {
      return Err(EmptyPlanMessage), asked;
    }
    var parsed := parse(rawOutput);
    if parsed.None? {
      return Err(InvalidJsonMessage), asked;
    }
    var patched := PatchMissingQuery(parsed, state);
    result := NormalizeSearchPlan(patched);
  }
}
