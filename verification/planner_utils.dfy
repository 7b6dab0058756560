/**
 * Normalisation of the search plan the language model returns
 * (src/llm/planner/utils.ts): a fail-safe strategy, a trimmed explanation,
 * cleaned follow-up suggestions and the query passed through untouched.
 */
module PlannerUtils {
  import opened Wrappers
  import opened Text
  import opened Json

  datatype Strategy = FreshSearch | ReuseResults

  const FreshSearchName: string := "fresh-search"
  const ReuseResultsName: string := "reuse-results"

  /** The spelling of a strategy in a plan. */
  function StrategyName(s: Strategy): string {
    match s
    case FreshSearch => FreshSearchName
    case ReuseResults => ReuseResultsName
  }

  /**
   * A normalised plan. `query` is whatever the model put there (`None` when
   * the property was missing), since nothing normalises it.
   */
  datatype SearchPlan = SearchPlan(query: Value, explanation: string, followUpSuggestions: seq<string>, strategy: Strategy)

  const InvalidPlanMessage: string := "OpenAI response was not a valid object."

  /** `determineStrategy`: reuse only for the exact string "reuse-results"; anything else is a fresh search. */
  function DetermineStrategy(value: Value): (r: Strategy)
    ensures r == ReuseResults <==> value == Some(JStr(ReuseResultsName))
    ensures r == FreshSearch <==> value != Some(JStr(ReuseResultsName))
  {
    if value == Some(JStr(ReuseResultsName)) then ReuseResults else FreshSearch
  }

  /** A suggestion as the `map` step sees it: a string trimmed, anything else empty. */
  function SuggestionText(entry: Json): string {
    if entry.JStr? then Trim(entry.s) else ""
  }

  /** `entries.map(trim-or-empty).filter(non-empty)` */
  function CleanSuggestions(entries: seq<Json>): (r: seq<string>)
    ensures |r| <= |entries|
    ensures forall i :: 0 <= i < |r| ==> r[i] != [] && IsTrimmed(r[i])
  {
    if entries == [] then []
    else
      var text := SuggestionText(entries[0]);
      (if text != [] then [text] else []) + CleanSuggestions(entries[1..])
  }

  /** The strings among `entries` that are not blank, trimmed, in their order. */
  predicate IsKeptSuggestion(entry: Json) {
    entry.JStr? && Trim(entry.s) != []
  }

  /** A suggestion is kept exactly when it is a string that is not blank, and it is kept trimmed. */
  lemma {:induction false} CleanSuggestionsMembers(entries: seq<Json>, text: string)
    ensures text in CleanSuggestions(entries) <==>
              exists i :: 0 <= i < |entries| && IsKeptSuggestion(entries[i]) && Trim(entries[i].s) == text
  {
    if entries != [] {
      CleanSuggestionsMembers(entries[1..], text);
      if exists i :: 0 <= i < |entries| && IsKeptSuggestion(entries[i]) && Trim(entries[i].s) == text {
        var i :| 0 <= i < |entries| && IsKeptSuggestion(entries[i]) && Trim(entries[i].s) == text;
        if i > 0 {
          assert entries[1..][i - 1] == entries[i];
        }
      }
      if exists i :: 0 <= i < |entries| - 1 && IsKeptSuggestion(entries[1..][i]) && Trim(entries[1..][i].s) == text {
        var i :| 0 <= i < |entries| - 1 && IsKeptSuggestion(entries[1..][i]) && Trim(entries[1..][i].s) == text;
        assert entries[i + 1] == entries[1..][i];
      }
    }
  }

  /** The map/filter chain works entry by entry. */
  lemma {:induction false} CleanSuggestionsAppend(a: seq<Json>, b: seq<Json>)
    ensures CleanSuggestions(a + b) == CleanSuggestions(a) + CleanSuggestions(b)
  {
    if a == [] {
      assert a + b == b;
    } else {
      assert (a + b)[1..] == a[1..] + b;
      CleanSuggestionsAppend(a[1..], b);
      var text := SuggestionText(a[0]);
      var head: seq<string> := if text != [] then [text] else [];
      assert CleanSuggestions(a + b) == head + (CleanSuggestions(a[1..]) + CleanSuggestions(b));
      assert head + (CleanSuggestions(a[1..]) + CleanSuggestions(b))
          == (head + CleanSuggestions(a[1..])) + CleanSuggestions(b);
    }
  }

  /** Suggestions that are already clean come through unchanged. */
  lemma {:induction false} CleanSuggestionsOfClean(suggestions: seq<string>)
    requires forall i :: 0 <= i < |suggestions| ==> suggestions[i] != [] && IsTrimmed(suggestions[i])
    ensures CleanSuggestions(Texts(suggestions)) == suggestions
  {
    if suggestions != [] {
      TrimOfTrimmed(suggestions[0]);
      assert Texts(suggestions)[1..] == Texts(suggestions[1..]);
      CleanSuggestionsOfClean(suggestions[1..]);
    }
  }

  /** Strings as JSON strings. */
  function Texts(suggestions: seq<string>): (r: seq<Json>)
    ensures |r| == |suggestions| && forall i :: 0 <= i < |r| ==> r[i] == JStr(suggestions[i])
  {
    seq(|suggestions|, i requires 0 <= i < |suggestions| => JStr(suggestions[i]))
  }

  /**
   * `normalizeSearchPlan`: a payload that is null or not an object throws;
   * otherwise the query is passed through, the explanation is trimmed (empty
   * when it is not a string), the follow-up suggestions are cleaned (none
   * when they are not an array) and the strategy falls back to a fresh search.
   */
  function NormalizeSearchPlan(payload: Value): (r: Result<SearchPlan, string>)
    ensures r.Err? <==> !(payload.Some? && (payload.value.JObj? || payload.value.JArr?))
    ensures r.Err? ==> r.error == InvalidPlanMessage
    ensures r.Ok? ==> r.value.query == Member(payload, "query")
    ensures r.Ok? ==> IsTrimmed(r.value.explanation)
    ensures r.Ok? && !Member(payload, "explanation").Some? ==> r.value.explanation == ""
    ensures r.Ok? && Member(payload, "explanation").Some? && !Member(payload, "explanation").value.JStr? ==>
              r.value.explanation == ""
    ensures r.Ok? && Member(payload, "explanation").Some? && Member(payload, "explanation").value.JStr? ==>
              r.value.explanation == Trim(Member(payload, "explanation").value.s)
    ensures r.Ok? && Member(payload, "followUpSuggestions").Some? && Member(payload, "followUpSuggestions").value.JArr? ==>
              r.value.followUpSuggestions == CleanSuggestions(Member(payload, "followUpSuggestions").value.items)
    ensures r.Ok? && !(Member(payload, "followUpSuggestions").Some? && Member(payload, "followUpSuggestions").value.JArr?) ==>
              r.value.followUpSuggestions == []
    ensures r.Ok? ==> forall i :: 0 <= i < |r.value.followUpSuggestions| ==>
              r.value.followUpSuggestions[i] != [] && IsTrimmed(r.value.followUpSuggestions[i])
    ensures r.Ok? ==> (r.value.strategy == ReuseResults <==> Member(payload, "strategy") == Some(JStr(ReuseResultsName)))
  {
    if !Truthy(payload) || !(payload.value.JObj? || payload.value.JArr?) then Err(InvalidPlanMessage)
    else
      var explanation := Member(payload, "explanation");
      var suggestions := Member(payload, "followUpSuggestions");
      Ok(SearchPlan(
        Member(payload, "query"),
        if explanation.Some? && explanation.value.JStr? then Trim(explanation.value.s) else "",
        if suggestions.Some? && suggestions.value.JArr? then CleanSuggestions(suggestions.value.items) else [],
        DetermineStrategy(Member(payload, "strategy"))))
  }

  /** A plan written back as the JSON object it stands for; a missing query stays missing. */
  function PlanJson(plan: SearchPlan): (r: Json)
    ensures r.JObj?
  {
    var rest := [
      Field("explanation", JStr(plan.explanation)),
      Field("followUpSuggestions", JArr(Texts(plan.followUpSuggestions))),
      Field("strategy", JStr(StrategyName(plan.strategy)))];
    if plan.query.Some? then JObj([Field("query", plan.query.value)] + rest) else JObj(rest)
  }

  /** Normalising an already normalised plan gives the same plan back. */
  lemma NormalizeIdempotent(payload: Value)
    requires NormalizeSearchPlan(payload).Ok?
    ensures NormalizeSearchPlan(Some(PlanJson(NormalizeSearchPlan(payload).value))) == NormalizeSearchPlan(payload)
  {
    var plan := NormalizeSearchPlan(payload).value;
    TrimOfTrimmed(plan.explanation);
    CleanSuggestionsOfClean(plan.followUpSuggestions);
    PlanJsonFields(plan);
  }

  /** Reading the properties of a plan written back as JSON. */
  lemma PlanJsonFields(plan: SearchPlan)
    ensures var v := Some(PlanJson(plan));
            && Member(v, "query") == plan.query
            && Member(v, "explanation") == Some(JStr(plan.explanation))
            && Member(v, "followUpSuggestions") == Some(JArr(Texts(plan.followUpSuggestions)))
            && Member(v, "strategy") == Some(JStr(StrategyName(plan.strategy)))
  {
    var rest := [
      Field("explanation", JStr(plan.explanation)),
      Field("followUpSuggestions", JArr(Texts(plan.followUpSuggestions))),
      Field("strategy", JStr(StrategyName(plan.strategy)))];
    assert "explanation" != "query" && "followUpSuggestions" != "query" && "strategy" != "query";
    assert "followUpSuggestions" != "explanation" && "strategy" != "explanation" && "strategy" != "followUpSuggestions";
    var last := [Field("strategy", JStr(StrategyName(plan.strategy)))];
    assert rest[1..][1..] == last;
    assert Get(last, "query") == None && Get(last, "explanation") == None && Get(last, "followUpSuggestions") == None;
    assert Get(rest[1..], "query") == None && Get(rest[1..], "explanation") == None;
    assert Get(rest, "query") == None;
    var v := Some(PlanJson(plan));
    if plan.query.Some? {
      var fields := [Field("query", plan.query.value)] + rest;
      assert fields[1..] == rest;
      assert v.value.fields == fields;
      assert Get(fields, "explanation") == Get(rest, "explanation");
      assert Get(fields, "followUpSuggestions") == Get(rest, "followUpSuggestions");
      assert Get(fields, "strategy") == Get(rest, "strategy");
    } else {
      assert v.value.fields == rest;
    }
    assert Get(rest, "explanation") == Some(JStr(plan.explanation));
    assert Get(rest, "followUpSuggestions") == Get(rest[1..], "followUpSuggestions");
    assert Get(rest, "strategy") == Get(last, "strategy");
  }
}
