/**
 * The catalog search of src/services/tvdb/series/index.ts: the full term is
 * tried first and then each fallback query, skipping blank candidates and
 * candidates already sent (compared case-insensitively), until a request
 * returns a non-empty list. A 400 answer moves on to the next candidate;
 * any other failure ends the search with a translated error message.
 *
 * The catalog itself is a parameter: a function from the request's query
 * parameters to its reply.
 */
module SeriesSearch {
  import opened Wrappers
  import opened Text
  import opened Seqs
  import opened Json
  import opened SeriesUtils

  /**
   * A failed request. `HttpError` is an HTTP client error, with the status
   * of the response and the `message` of its body when there are any;
   * `Thrown` is anything else, with its message when it is an `Error`.
   */
  datatype CatalogError =
    | HttpError(status: Option<int>, message: Option<string>)
    | Thrown(message: Option<string>)

  /** The catalog's reply to one request: the response body, or a failure. */
  datatype CatalogReply = Answered(body: Value) | Failed(error: CatalogError)

  const NotFoundMessage: string := "TVDB did not return any matches."
  const AuthFailedMessage: string := "TVDB authentication failed. Please verify credentials."
  const UnknownMessage: string := "Unknown TVDB error"
  const StatusPrefix: string := "TVDB request failed with status "

  /**
   * `translateTvdbError`: 404 and 401 get fixed texts; otherwise the
   * server's message, else the status (or "unknown"). An error that is not
   * an HTTP error keeps its own message.
   */
  function TranslateTvdbError(error: CatalogError): (message: string)
    ensures error.Thrown? ==> message == error.message.GetOr(UnknownMessage)
    ensures error.HttpError? && error.status == Some(404) ==> message == NotFoundMessage
    ensures error.HttpError? && error.status == Some(401) ==> message == AuthFailedMessage
    ensures error.HttpError? && error.status != Some(404) && error.status != Some(401) ==>
              if error.message.Some? then message == error.message.value
              else if error.status.Some? then message == StatusPrefix + IntToString(error.status.value)
              else message == StatusPrefix + "unknown"
  {
    match error
    case Thrown(m) => m.GetOr(UnknownMessage)
    case HttpError(status, m) =>
      if status == Some(404) then NotFoundMessage
      else if status == Some(401) then AuthFailedMessage
      else if m.Some? then m.value
      else StatusPrefix + (if status.Some? then IntToString(status.value) else "unknown")
  }

  /**
   * The status in the fallback message reads back: for a response without a
   * message, the text after the fixed prefix is the decimal status.
   */
  lemma TranslatedStatusReadsBack(status: nat)
    requires status != 404 && status != 401
    ensures var message := TranslateTvdbError(HttpError(Some(status), None));
            && |message| > |StatusPrefix| && message[..|StatusPrefix|] == StatusPrefix
            && AllDigits(message[|StatusPrefix|..]) && DigitsValue(message[|StatusPrefix|..]) == status
  {
    var message := TranslateTvdbError(HttpError(Some(status), None));
    assert message == StatusPrefix + NatToString(status);
    assert message[|StatusPrefix|..] == NatToString(status);
    NatToStringRoundTrip(status);
  }

  /** `{ ...options, query: candidate }`: the options with `query` set to the candidate. */
  function Request(options: seq<Field>, candidate: string): seq<Field> {
    SetField(options, "query", JStr(candidate))
  }

  /** A request sends the candidate as `query` and every other option as given. */
  lemma RequestCarriesOptions(options: seq<Field>, candidate: string, key: string)
    ensures Get(Request(options, candidate), "query") == Some(JStr(candidate))
    ensures key != "query" ==> Get(Request(options, candidate), key) == Get(options, key)
  {
    GetSetSame(options, "query", JStr(candidate));
    if key != "query" {
      GetSetOther(options, "query", JStr(candidate), key);
    }
  }

  /** `response.data?.data` when it is a non-empty array: the results that end the search. */
  function Results(body: Value): Option<seq<Json>> {
    var results := Member(body, "data");
    if results.Some? && results.value.JArr? && |results.value.items| > 0 then Some(results.value.items) else None
  }

  /** How one request ends: with results, by moving on, or with an error. */
  datatype Step = Done(results: seq<Json>) | MoveOn | Stop(error: CatalogError)

  function StepOf(reply: CatalogReply): Step {
    match reply
    case Answered(body) => if Results(body).Some? then Done(Results(body).value) else MoveOn
    case Failed(e) => if e.HttpError? && e.status == Some(400) then MoveOn else Stop(e)
  }

  /** The queries sent, in order, and how the search ended. */
  datatype Outcome = Outcome(sent: seq<string>, result: Result<seq<Json>, string>)

  /** `candidate.trim()` is sent unless it is blank or its lowercase form was sent before. */
  predicate IsFresh(candidate: string, tried: set<string>) {
    Trim(candidate) != [] && Lower(Trim(candidate)) !in tried
  }

  /**
   * The loop of `searchSeries` over the remaining `candidates`, with the
   * lowercase forms of the queries already sent in `tried`.
   */
  function Attempts(candidates: seq<string>, tried: set<string>, options: seq<Field>,
                    catalog: seq<Field> -> CatalogReply): (r: Outcome)
    decreases |candidates|
  {
    if candidates == [] then Outcome([], Ok([]))
    else if !IsFresh(candidates[0], tried) then Attempts(candidates[1..], tried, options, catalog)
    else
      var query := Trim(candidates[0]);
      match StepOf(catalog(Request(options, query)))
      case Done(results) => Outcome([query], Ok(results))
      case Stop(e) => Outcome([query], Err(TranslateTvdbError(e)))
      case MoveOn =>
        var rest := Attempts(candidates[1..], tried + {Lower(query)}, options, catalog);
        Outcome([query] + rest.sent, rest.result)
  }

  /** The candidates of a term: the term itself, then its fallback queries. */
  function Candidates(term: string, minWordLength: nat, prefixWordCount: nat): seq<string> {
    [term] + FallbackQueries(term, minWordLength, prefixWordCount)
  }

  /** `searchSeries`: nothing for a blank term, else the loop over the candidates. */
  function Search(searchTerm: string, options: seq<Field>, catalog: seq<Field> -> CatalogReply,
                  minWordLength: nat, prefixWordCount: nat): Outcome {
    var term := Trim(searchTerm);
    if term == [] then Outcome([], Ok([]))
    else Attempts(Candidates(term, minWordLength, prefixWordCount), {}, options, catalog)
  }

  /** `Outcome(sent + o.sent, o.result)`: what was sent before, then the rest of the loop. */
  function After(sent: seq<string>, o: Outcome): Outcome {
    Outcome(sent + o.sent, o.result)
  }

  /**
   * `searchSeries`, run as the source runs it: a loop over the candidates
   * with a set of the lowercase queries already sent. `sent` records the
   * queries in order.
   */
  method SearchSeries(searchTerm: string, options: seq<Field>, catalog: seq<Field> -> CatalogReply,
                      minWordLength: nat, prefixWordCount: nat)
    returns (result: Result<seq<Json>, string>, ghost sent: seq<string>)
    ensures result == Search(searchTerm, options, catalog, minWordLength, prefixWordCount).result
    ensures sent == Search(searchTerm, options, catalog, minWordLength, prefixWordCount).sent
  {
    sent := [];
    var term := Trim(searchTerm);
    if term == [] {
      return Ok([]), sent;
    }
    var fallbacks := DeriveFallbackQueries(term, minWordLength, prefixWordCount);
    var candidates := [term] + fallbacks;
    var tried: set<string> := {};
    for i := 0 to |candidates|
      invariant Attempts(candidates, {}, options, catalog) == After(sent, Attempts(candidates[i..], tried, options, catalog))
    {
      assert candidates[i..][1..] == candidates[i + 1..];
      var query := Trim(candidates[i]);
      if query == [] {
        continue;
      }
      var key := Lower(query);
      if key in tried {
        continue;
      }
      tried := tried + {key};
      var step := StepOf(catalog(Request(options, query)));
      if step.Done? {
        AppendAssoc(sent, [query], []);
        return Ok(step.results), sent + [query];
      } else if step.Stop? {
        AppendAssoc(sent, [query], []);
        return Err(TranslateTvdbError(step.error)), sent + [query];
      }
      AppendAssoc(sent, [query], Attempts(candidates[i + 1..], tried, options, catalog).sent);
      sent := sent + [query];
    }
    AppendNil(sent);
    result := Ok([]);
  }

  /**
   * The queries of one run of the loop: trimmed, not blank, never in
   * `tried`, and pairwise different once lowercased; taken from the
   * candidates in order.
   */
  lemma {:induction false} AttemptsSendFreshQueries(candidates: seq<string>, tried: set<string>, options: seq<Field>,
                                                    catalog: seq<Field> -> CatalogReply)
    ensures var sent := Attempts(candidates, tried, options, catalog).sent;
            && IsSubseq(sent, TrimAll(candidates))
            && (forall i :: 0 <= i < |sent| ==> sent[i] != [] && IsTrimmed(sent[i]) && Lower(sent[i]) !in tried)
            && (forall i, j :: 0 <= i < j < |sent| ==> Lower(sent[i]) != Lower(sent[j]))
    decreases |candidates|
  {
    if candidates != [] {
      var rest := candidates[1..];
      assert TrimAll(candidates) == [Trim(candidates[0])] + TrimAll(rest);
      if !IsFresh(candidates[0], tried) {
        AttemptsSendFreshQueries(rest, tried, options, catalog);
        SubseqSkip(Trim(candidates[0]), Attempts(rest, tried, options, catalog).sent, TrimAll(rest));
      } else {
        var query := Trim(candidates[0]);
        var tail := Attempts(rest, tried + {Lower(query)}, options, catalog).sent;
        AttemptsSendFreshQueries(rest, tried + {Lower(query)}, options, catalog);
        SubseqOfEmpty(TrimAll(rest));
        SubseqCons(query, [], TrimAll(rest));
        SubseqCons(query, tail, TrimAll(rest));
      }
    }
  }

  /**
   * `query` is the trimmed form of a candidate, and no candidate before that
   * one reads the same once trimmed and lowercased.
   */
  predicate FirstOfItsCase(candidates: seq<string>, query: string) {
    exists i :: 0 <= i < |candidates| && query == Trim(candidates[i])
                && forall j :: 0 <= j < i ==> Lower(Trim(candidates[j])) != Lower(query)
  }

  /** A query first in the remaining candidates stays first behind a head that reads differently. */
  lemma FirstOfItsCaseBehind(candidates: seq<string>, query: string)
    requires candidates != [] && FirstOfItsCase(candidates[1..], query)
    requires Lower(Trim(candidates[0])) != Lower(query)
    ensures FirstOfItsCase(candidates, query)
  {
    var rest := candidates[1..];
    var i :| 0 <= i < |rest| && query == Trim(rest[i])
             && forall j :: 0 <= j < i ==> Lower(Trim(rest[j])) != Lower(query);
    assert candidates[i + 1] == rest[i];
    forall j | 0 <= j < i + 1
      ensures Lower(Trim(candidates[j])) != Lower(query)
    {
      if j > 0 {
        assert candidates[j] == rest[j - 1];
      }
    }
  }

  /** Skipping a blank or already sent candidate keeps every later query first of its case. */
  lemma FirstOfEachCaseSkip(candidates: seq<string>, tried: set<string>, sent: seq<string>)
    requires candidates != [] && !IsFresh(candidates[0], tried)
    requires forall k :: 0 <= k < |sent| ==> FirstOfItsCase(candidates[1..], sent[k])
    requires forall k :: 0 <= k < |sent| ==> sent[k] != [] && Lower(sent[k]) !in tried
    ensures forall k :: 0 <= k < |sent| ==> FirstOfItsCase(candidates, sent[k])
  {
    forall k | 0 <= k < |sent|
      ensures FirstOfItsCase(candidates, sent[k])
    {
      assert Lower(sent[k]) != [];
      FirstOfItsCaseBehind(candidates, sent[k]);
    }
  }

  /** Sending the head candidate, then only queries whose lowercase form differs from it, keeps each first of its case. */
  lemma FirstOfEachCaseSend(candidates: seq<string>, tail: seq<string>)
    requires candidates != []
    requires forall k :: 0 <= k < |tail| ==> FirstOfItsCase(candidates[1..], tail[k])
    requires forall k :: 0 <= k < |tail| ==> Lower(tail[k]) != Lower(Trim(candidates[0]))
    ensures var sent := [Trim(candidates[0])] + tail;
            forall k :: 0 <= k < |sent| ==> FirstOfItsCase(candidates, sent[k])
  {
    var sent := [Trim(candidates[0])] + tail;
    forall k | 0 <= k < |sent|
      ensures FirstOfItsCase(candidates, sent[k])
    {
      if k == 0 {
        assert sent[0] == Trim(candidates[0]);
      } else {
        assert sent[k] == tail[k - 1];
        FirstOfItsCaseBehind(candidates, sent[k]);
      }
    }
  }

  /**
   * Of candidates that read the same up to case, the first is the one sent:
   * every query sent is a candidate that no earlier candidate matches once
   * lowercased.
   */
  lemma {:induction false} AttemptsSendFirstOfEachCase(candidates: seq<string>, tried: set<string>, options: seq<Field>,
                                                       catalog: seq<Field> -> CatalogReply)
    ensures var sent := Attempts(candidates, tried, options, catalog).sent;
            forall k :: 0 <= k < |sent| ==> FirstOfItsCase(candidates, sent[k])
    decreases |candidates|
  {
    if candidates != [] {
      var rest := candidates[1..];
      if !IsFresh(candidates[0], tried) {
        AttemptsSendFirstOfEachCase(rest, tried, options, catalog);
        AttemptsSendFreshQueries(rest, tried, options, catalog);
        FirstOfEachCaseSkip(candidates, tried, Attempts(rest, tried, options, catalog).sent);
      } else {
        var query := Trim(candidates[0]);
        if StepOf(catalog(Request(options, query))).MoveOn? {
          var tried' := tried + {Lower(query)};
          AttemptsSendFirstOfEachCase(rest, tried', options, catalog);
          AttemptsSendFreshQueries(rest, tried', options, catalog);
          FirstOfEachCaseSend(candidates, Attempts(rest, tried', options, catalog).sent);
        } else {
          FirstOfEachCaseSend(candidates, []);
        }
      }
    }
  }

  /** Every query of `sent` but the last got an empty answer or a 400. */
  predicate MovedOnBeforeLast(sent: seq<string>, options: seq<Field>, catalog: seq<Field> -> CatalogReply) {
    forall i :: 0 <= i < |sent| - 1 ==> StepOf(catalog(Request(options, sent[i]))) == MoveOn
  }

  /** Every query sent before the last one got an empty answer or a 400. */
  lemma {:induction false} AttemptsMoveOnUntilLast(candidates: seq<string>, tried: set<string>, options: seq<Field>,
                                                   catalog: seq<Field> -> CatalogReply)
    ensures MovedOnBeforeLast(Attempts(candidates, tried, options, catalog).sent, options, catalog)
    decreases |candidates|
  {
    if candidates != [] {
      var rest := candidates[1..];
      if !IsFresh(candidates[0], tried) {
        AttemptsMoveOnUntilLast(rest, tried, options, catalog);
      } else {
        var query := Trim(candidates[0]);
        if StepOf(catalog(Request(options, query))).MoveOn? {
          var o := Attempts(rest, tried + {Lower(query)}, options, catalog);
          AttemptsMoveOnUntilLast(rest, tried + {Lower(query)}, options, catalog);
          var sent := [query] + o.sent;
          assert Attempts(candidates, tried, options, catalog).sent == sent;
          assert forall i :: 1 <= i < |sent| ==> sent[i] == o.sent[i - 1];
        }
      }
    }
  }

  /**
   * How a run of the loop ends: results come from the last query's
   * non-empty answer; an error is the translation of the last query's
   * failure, which was not a 400; no results means every query moved on.
   */
  lemma {:induction false} AttemptsEnd(candidates: seq<string>, tried: set<string>, options: seq<Field>,
                                       catalog: seq<Field> -> CatalogReply)
    ensures var o := Attempts(candidates, tried, options, catalog);
            && (o.result.Ok? && o.result.value != [] ==>
                  o.sent != [] && StepOf(catalog(Request(options, o.sent[|o.sent| - 1]))) == Done(o.result.value))
            && (o.result.Err? ==>
                  o.sent != [] && exists e :: StepOf(catalog(Request(options, o.sent[|o.sent| - 1]))) == Stop(e)
                                               && o.result.error == TranslateTvdbError(e))
            && (o.result == Ok([]) ==> forall i :: 0 <= i < |o.sent| ==> StepOf(catalog(Request(options, o.sent[i]))) == MoveOn)
    decreases |candidates|
  {
    if candidates != [] {
      var rest := candidates[1..];
      if !IsFresh(candidates[0], tried) {
        AttemptsEnd(rest, tried, options, catalog);
      } else {
        var query := Trim(candidates[0]);
        var step := StepOf(catalog(Request(options, query)));
        if step.MoveOn? {
          var o := Attempts(rest, tried + {Lower(query)}, options, catalog);
          AttemptsEnd(rest, tried + {Lower(query)}, options, catalog);
          var sent := [query] + o.sent;
          assert sent[|sent| - 1] == if o.sent == [] then query else o.sent[|o.sent| - 1];
          assert forall i :: 1 <= i < |sent| ==> sent[i] == o.sent[i - 1];
        }
      }
    }
  }

  /** A failure that stops the search is never a 400. */
  lemma StopIsNot400(reply: CatalogReply)
    ensures StepOf(reply).Stop? ==> !(StepOf(reply).error.HttpError? && StepOf(reply).error.status == Some(400))
    ensures reply.Failed? && reply.error.HttpError? && reply.error.status == Some(400) ==> StepOf(reply) == MoveOn
  {
  }

  /**
   * When the loop ends with no results, every candidate that is not blank
   * was sent, in its lowercase form, or had been before.
   */
  lemma {:induction false} AttemptsExhaust(candidates: seq<string>, tried: set<string>, options: seq<Field>,
                                           catalog: seq<Field> -> CatalogReply)
    ensures var o := Attempts(candidates, tried, options, catalog);
            o.result == Ok([]) ==>
              forall i :: 0 <= i < |candidates| && Trim(candidates[i]) != [] ==>
                Lower(Trim(candidates[i])) in tried || exists j :: 0 <= j < |o.sent| && Lower(o.sent[j]) == Lower(Trim(candidates[i]))
    decreases |candidates|
  {
    if candidates != [] {
      var rest := candidates[1..];
      var o := Attempts(candidates, tried, options, catalog);
      assert forall i :: 1 <= i < |candidates| ==> candidates[i] == rest[i - 1];
      if !IsFresh(candidates[0], tried) {
        AttemptsExhaust(rest, tried, options, catalog);
      } else {
        var query := Trim(candidates[0]);
        if StepOf(catalog(Request(options, query))).MoveOn? {
          var tail := Attempts(rest, tried + {Lower(query)}, options, catalog);
          AttemptsExhaust(rest, tried + {Lower(query)}, options, catalog);
          assert o.sent == [query] + tail.sent;
          assert o.sent[0] == query;
          assert forall j :: 0 <= j < |tail.sent| ==> o.sent[j + 1] == tail.sent[j];
        }
      }
    }
  }

  /** The candidate was sent, compared in lowercase. */
  predicate WasSent(sent: seq<string>, candidate: string) {
    exists j :: 0 <= j < |sent| && Lower(sent[j]) == Lower(Trim(candidate))
  }

  /** No candidate before `n` that is not blank was skipped unless it had been sent before. */
  predicate NoneSkipped(candidates: seq<string>, n: int, tried: set<string>, sent: seq<string>)
    requires 0 <= n <= |candidates|
  {
    forall i :: 0 <= i < n && Trim(candidates[i]) != [] ==>
      Lower(Trim(candidates[i])) in tried || WasSent(sent, candidates[i])
  }

  /**
   * The loop stopped after the first `n` candidates: none of them was
   * skipped without reason; when it found results or an error, the last
   * query sent is candidate `n - 1`, and otherwise it went through all of them.
   */
  predicate StopsAt(candidates: seq<string>, tried: set<string>, o: Outcome, n: int) {
    && 0 <= n <= |candidates|
    && NoneSkipped(candidates, n, tried, o.sent)
    && (o.result == Ok([]) ==> n == |candidates|)
    && (o.result != Ok([]) ==> 0 < n && o.sent != [] && o.sent[|o.sent| - 1] == Trim(candidates[n - 1]))
  }

  /** Skipping a blank or already sent candidate keeps the loop's account. */
  lemma SkipStale(candidates: seq<string>, tried: set<string>, o: Outcome, m: int)
    requires candidates != [] && !IsFresh(candidates[0], tried)
    requires StopsAt(candidates[1..], tried, o, m)
    ensures StopsAt(candidates, tried, o, m + 1)
  {
    var rest := candidates[1..];
    forall i | 0 <= i < m + 1 && Trim(candidates[i]) != []
      ensures Lower(Trim(candidates[i])) in tried || WasSent(o.sent, candidates[i])
    {
      if i > 0 {
        assert candidates[i] == rest[i - 1];
      }
    }
  }

  /** Sending a candidate that moved on, then going on with the rest, keeps the loop's account. */
  lemma SendAndMoveOn(candidates: seq<string>, tried: set<string>, tail: Outcome, m: int)
    requires candidates != [] && IsFresh(candidates[0], tried)
    requires StopsAt(candidates[1..], tried + {Lower(Trim(candidates[0]))}, tail, m)
    ensures StopsAt(candidates, tried, Outcome([Trim(candidates[0])] + tail.sent, tail.result), m + 1)
  {
    var rest := candidates[1..];
    var query := Trim(candidates[0]);
    var sent := [query] + tail.sent;
    assert sent[0] == query;
    forall i | 0 <= i < m + 1 && Trim(candidates[i]) != []
      ensures Lower(Trim(candidates[i])) in tried || WasSent(sent, candidates[i])
    {
      if i > 0 {
        assert candidates[i] == rest[i - 1];
        if WasSent(tail.sent, rest[i - 1]) {
          var j :| 0 <= j < |tail.sent| && Lower(tail.sent[j]) == Lower(Trim(rest[i - 1]));
          assert sent[j + 1] == tail.sent[j];
        }
      }
    }
    if tail.result != Ok([]) {
      assert sent[|sent| - 1] == tail.sent[|tail.sent| - 1];
    }
  }

  /**
   * However the loop ends, it ends at some candidate, and every candidate
   * before that one that is not blank was sent, in its lowercase form, or
   * had been before.
   */
  lemma {:induction false} AttemptsSkipNothing(candidates: seq<string>, tried: set<string>, options: seq<Field>,
                                               catalog: seq<Field> -> CatalogReply)
    ensures exists n :: StopsAt(candidates, tried, Attempts(candidates, tried, options, catalog), n)
    decreases |candidates|
  {
    var o := Attempts(candidates, tried, options, catalog);
    if candidates == [] {
      assert StopsAt(candidates, tried, o, 0);
    } else if !IsFresh(candidates[0], tried) {
      AttemptsSkipNothing(candidates[1..], tried, options, catalog);
      var m :| StopsAt(candidates[1..], tried, o, m);
      SkipStale(candidates, tried, o, m);
    } else {
      var query := Trim(candidates[0]);
      var step := StepOf(catalog(Request(options, query)));
      if step.MoveOn? {
        var tried' := tried + {Lower(query)};
        var tail := Attempts(candidates[1..], tried', options, catalog);
        AttemptsSkipNothing(candidates[1..], tried', options, catalog);
        var m :| StopsAt(candidates[1..], tried', tail, m);
        SendAndMoveOn(candidates, tried, tail, m);
      } else {
        assert o.sent == [query];
        assert Lower(o.sent[0]) == Lower(Trim(candidates[0]));
        assert StopsAt(candidates, tried, o, 1);
      }
    }
  }

  /**
   * `searchSeries` stops at some candidate of the term, and every candidate
   * before it that is not blank was sent, compared in lowercase.
   */
  lemma SearchSkipsNothing(searchTerm: string, options: seq<Field>, catalog: seq<Field> -> CatalogReply,
                           minWordLength: nat, prefixWordCount: nat)
    requires Trim(searchTerm) != []
    ensures var candidates := Candidates(Trim(searchTerm), minWordLength, prefixWordCount);
            exists n :: StopsAt(candidates, {}, Search(searchTerm, options, catalog, minWordLength, prefixWordCount), n)
  {
    var candidates := Candidates(Trim(searchTerm), minWordLength, prefixWordCount);
    assert Search(searchTerm, options, catalog, minWordLength, prefixWordCount) == Attempts(candidates, {}, options, catalog);
    AttemptsSkipNothing(candidates, {}, options, catalog);
  }

  /** `searchSeries` sends, of the candidates of a term that read the same up to case, the first one. */
  lemma SearchSendsFirstOfEachCase(searchTerm: string, options: seq<Field>, catalog: seq<Field> -> CatalogReply,
                                   minWordLength: nat, prefixWordCount: nat)
    ensures var sent := Search(searchTerm, options, catalog, minWordLength, prefixWordCount).sent;
            forall k :: 0 <= k < |sent| ==> FirstOfItsCase(Candidates(Trim(searchTerm), minWordLength, prefixWordCount), sent[k])
  {
    var candidates := Candidates(Trim(searchTerm), minWordLength, prefixWordCount);
    if Trim(searchTerm) != [] {
      assert Search(searchTerm, options, catalog, minWordLength, prefixWordCount) == Attempts(candidates, {}, options, catalog);
      AttemptsSendFirstOfEachCase(candidates, {}, options, catalog);
    }
  }

  /** A blank term sends nothing and finds nothing. */
  lemma SearchBlankTerm(searchTerm: string, options: seq<Field>, catalog: seq<Field> -> CatalogReply,
                        minWordLength: nat, prefixWordCount: nat)
    requires IsBlank(searchTerm)
    ensures Search(searchTerm, options, catalog, minWordLength, prefixWordCount) == Outcome([], Ok([]))
  {
    TrimEmptyIffBlank(searchTerm);
  }

  /** The first query sent for a term is the trimmed term itself. */
  lemma SearchTriesTermFirst(searchTerm: string, options: seq<Field>, catalog: seq<Field> -> CatalogReply,
                             minWordLength: nat, prefixWordCount: nat)
    requires Trim(searchTerm) != []
    ensures var o := Search(searchTerm, options, catalog, minWordLength, prefixWordCount);
            o.sent != [] && o.sent[0] == Trim(searchTerm)
  {
    var term := Trim(searchTerm);
    TrimIdempotent(searchTerm);
    assert Candidates(term, minWordLength, prefixWordCount)[0] == term;
  }
}
