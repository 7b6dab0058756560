# TVDB chatbot core, modelled in Dafny

The TVDB chatbot is a command-line loop. It asks a language model to turn a user's request into a search plan. Then it either filters the results it remembers from the previous turn or searches the TVDB catalog. It shows the results as recommendations and remembers them for the next turn.

This project models the deterministic layer between the model, the catalog and the conversation:

- **Catalog request shaping and result normalisation** (`Json`, `SeriesFields`, `Translations`, `SeriesUtils`):
  - the query parameters of a search;
  - the fallback queries derived from a verbose term;
  - locating the entry list in a response of varying shape;
  - mapping raw entries to typed records, dropping malformed ones;
  - picking an overview out of a nested translations structure.
- **The fallback search loop** (`SeriesSearch`). It runs against an abstract catalog and translates catalog errors.
- **Plan normalisation and patching** (`PlannerUtils`, `Planner`):
  - the fail-safe strategy, the trimmed explanation and the cleaned suggestions;
  - the back-fill of a reuse plan's query from memory;
  - the guards of `planSearch`, around an abstract model call and JSON parser.
- **Message text extraction** (`MessageUtils`).
- **The conversation memory** (`ConversationMemory`), a class whose fields are reassigned by update and reset.
- **The turn rules of the command-line loop** (`Cli`):
  - the forced-reuse phrase match;
  - the filter over cached results;
  - the year fallback;
  - recommendations;
  - the choice between cache and catalog;
  - the rule that memory changes only after a turn that showed results.

## How JSON values are modelled

A JavaScript value read from a response or a model reply is a `Json` value, and `Value = Option<Json>` where `None` stands for `undefined`:

- Objects keep their properties in enumeration order.
- Numbers are `Finite(int)`, `NaN` or an infinity, which is what `Number.isFinite` and truthiness need.

## How the imperative parts are modelled

Code that updates state step by step is written as methods, each proved equal to a specification function:

- `BuildSearchParams`, `DeriveFallbackQueries`;
- the `OverviewCollector` class for the translations walk;
- `SearchSeries`, `PatchMissingQuery`, `ApplyPlanToCachedResults`;
- the `Store` class;
- `PlanSearch` against `Planned`, `ResolveResults` against `Resolved`, `RunTurn` against `TurnOf` and `AfterTurn`, and `RunCli` against `Session`.

The properties are lemmas about those specification functions.

## Things outside the core, passed in as parameters

- the catalog;
- the planner model and `JSON.parse`;
- the summarising model;
- `new Date(text).getFullYear()`;
- `deriveSearchLimit` and `deriveSearchTerm`, which `src/cli/main.ts` imports but `src/llm/planner/index.ts` does not define;
- the four constants of the missing `constants.js` of the series utilities (`minFallbackWordLength`, `fallbackPrefixWordCount`, `maxEntryExtractionDepth`, `maxTranslationTraversalDepth`).

## Where the model follows the code rather than the declared types

- **`searchSeries` arity.** `searchSeries` is declared with two parameters but called with three (`src/cli/main.ts:204`). So its `options` is the numeric limit. Spreading a number adds no property, so every request carries only `query`, and the options built by `buildSearchOptions` never reach the catalog. `Cli.ResolveResults` calls the search with no options.
- **Raw entries.** `searchSeries` returns the raw entries of the response and never calls `normalizeSearchResults`. The loop reads them at the declared `TvdbSeries` type through a parameter (`asSeries`).
- **Conversation state types.** `src/state/types.ts` declares string ids and a type that does not exist. The model follows the types in `src/state/conversationMemory.ts`.

## Model

| member | source | states |
|---|---|---|
| SeriesFields.CoalesceString | src/services/tvdb/series/utils.ts:91-101 | null exactly when no candidate is a string that trims non-empty; otherwise the trimmed text of the first such candidate, which is never empty |
| SeriesFields.ClassifyTypeKey | src/services/tvdb/series/utils.ts:185-198 | movie exactly for movie/movies/film/films; series exactly for the empty key and series/tv/tv series/show/shows; null for anything else |
| SeriesFields.DetermineEntityType | src/services/tvdb/series/utils.ts:180-199 | a missing type is a series; otherwise the decision on the trimmed, lowercased text, both directions |
| SeriesFields.EntityTypeName | src/services/tvdb/series/utils.ts:180-199 | the name of each entity type reads back as that type |
| SeriesFields.NormalizeLanguageCode | src/services/tvdb/series/utils.ts:290-306 | a result is only produced for a string, and is "eng" or a two- or three-letter lowercase code |
| SeriesFields.NormalizeLanguageCodeOfText | src/services/tvdb/series/utils.ts:294-305 | every English alias gives "eng"; another two- or three-letter code gives itself lowercased; anything else gives null |
| SeriesFields.LeadingDigits | src/services/tvdb/series/utils.ts:318 | the longest run of digits at the start of a text |
| SeriesFields.ParseNumericId | src/services/tvdb/series/utils.ts:313-326 | a finite number is kept as it is and a non-finite one gives null; a string that is blank or has no digit gives null; any id is finite and comes from a number or a string, and one parsed from a string is not negative |
| SeriesFields.ParseNumericIdOfText | src/services/tvdb/series/utils.ts:317-323 | a string id is the value of its first run of digits, whatever precedes or follows it |
| Translations.OverviewCandidate | src/services/tvdb/series/utils.ts:210-214 | a candidate is recorded only when it is a non-empty trimmed text that does not look like a language code (`looksLikeLanguageCode`) |
| Translations.HandleCandidate | src/services/tvdb/series/utils.ts:210-222 | one call records at most one text, and every recorded text is an overview text |
| Translations.OffersAreOverviewTexts | src/services/tvdb/series/utils.ts:224-277 | the walk records nothing but overview texts, at any depth |
| Translations.EnglishTextsAppend | src/services/tvdb/series/utils.ts:216-221 | the English and fallback lists grow in recording order |
| Translations.EnglishTextsEmpty | src/services/tvdb/series/utils.ts:281-287 | the English list is empty exactly when no recorded text was English, and likewise for the fallback list |
| Translations.EnglishHead | src/services/tvdb/series/utils.ts:281-283 | the first entry of the English list is the text of the first English offer |
| Translations.OverviewFromTranslations | src/services/tvdb/series/utils.ts:201-288 | null exactly when the input is falsy or nothing was recorded; otherwise the text of the first English offer when any offer is English, else the text of the first offer; always an overview text |
| Translations.OverviewCollector.constructor | src/services/tvdb/series/utils.ts:206-207 | both lists start empty |
| Translations.OverviewCollector.Handle | src/services/tvdb/series/utils.ts:210-222 | appends the candidate to the English list or to the fallback list according to its language, and changes nothing else |
| Translations.OverviewCollector.Explore | src/services/tvdb/series/utils.ts:224-248 | appends exactly the English and the other texts the walk records from the node, in order |
| Translations.OverviewCollector.ExploreItems | src/services/tvdb/series/utils.ts:243-247 | the entries of an array are explored one level deeper, in order |
| Translations.OverviewCollector.ExploreRecord | src/services/tvdb/series/utils.ts:250-276 | a record offers its own text in its language (else the hinted one), then explores its properties |
| Translations.OverviewCollector.ExploreProperty | src/services/tvdb/series/utils.ts:273-276 | a property is explored under the language its name gives, else the record's, else the hint |
| Translations.OverviewCollector.ExploreFields | src/services/tvdb/series/utils.ts:273-276 | the properties are explored in enumeration order |
| Translations.ExtractOverviewFromTranslations | src/services/tvdb/series/utils.ts:201-288 | the imperative walk returns what OverviewFromTranslations specifies: the first English text, else the first other text, else null |
| SeriesUtils.Entries | src/services/tvdb/series/utils.ts:15 | the term is the first parameter, under `q` or `query` as asked |
| SeriesUtils.TextOption | src/services/tvdb/series/utils.ts:21-24 | a text option is sent exactly when it trims non-empty, and is sent trimmed |
| SeriesUtils.TextOptionIsCoalesce | src/services/tvdb/series/utils.ts:21 | that is `coalesceString(option ?? undefined)` |
| SeriesUtils.TypeText | src/services/tvdb/series/utils.ts:17-19 | the type is sent exactly when set: "series" for a series, "movie" for a movie, a name that reads back as the same type |
| SeriesUtils.YearText | src/services/tvdb/series/utils.ts:29-31 | the year is sent exactly when it is a finite number, as its decimal text |
| SeriesUtils.OffsetText | src/services/tvdb/series/utils.ts:52-54 | the offset is sent exactly when it is a finite number that is not negative, as `String` of it: the canonical decimal text, which parses back to the offset |
| Text.NatToStringUnique | src/services/tvdb/series/utils.ts:53 | `String(n)` is the only digit text without a leading zero that parses as `n`, so the limit and offset texts are canonical |
| SeriesUtils.BuildSearchParams | src/services/tvdb/series/utils.ts:9-57 | term under the chosen key; the limit as `String(max(limit, 1))`; each option sent exactly under the conditions above and with the values above, the type as `TypeText` and the offset as `OffsetText` |
| SeriesUtils.CleanChar | src/services/tvdb/series/utils.ts:60 | every character of the cleaned term is a word character or white space |
| SeriesUtils.LongerThanFacts | src/services/tvdb/series/utils.ts:64 | the length filter keeps, in order and as often as they occur, exactly the words longer than the bound |
| Seqs.DedupFacts | src/services/tvdb/series/utils.ts:70-76 | the set holds every element added and nothing else, each once |
| Seqs.DedupSnoc | src/services/tvdb/series/utils.ts:72-74 | adding an element already present changes nothing; otherwise it goes last |
| Seqs.DedupOrder | src/services/tvdb/series/utils.ts:76 | the set lists its elements in the order in which they were first added |
| Seqs.SubseqKeepsOrder | src/services/tvdb/series/utils.ts:76 | the filter that drops empty texts keeps the rest in that order |
| SeriesUtils.WordsShape | src/services/tvdb/series/utils.ts:60-64 | every surviving word is longer than the bound and made of word characters |
| SeriesUtils.DeriveFallbackQueries | src/services/tvdb/series/utils.ts:59-77 | the loop over a set returns exactly FallbackQueries, whose order, distinctness and contents FallbackQueriesShape states |
| SeriesUtils.FallbackQueriesShape | src/services/tvdb/series/utils.ts:59-77 | empty exactly when at most one word survives; otherwise distinct, non-empty queries: the prefix query first (when the prefix takes a word), then every surviving word, nothing else, in the order in which the prefix query and the words first occur |
| SeriesUtils.ExtractSeriesEntriesOrder | src/services/tvdb/series/utils.ts:103-123 | an array is taken as it is; a non-object or an object past the depth bound gives nothing; otherwise the first non-empty extraction under `series`, `results`, `data`, in that order |
| SeriesUtils.EntriesComeFromAnArray | src/services/tvdb/series/utils.ts:103-123 | a non-empty extraction is the items of an array reached through `series`/`results`/`data` properties, no more of them than the depth bound allows |
| SeriesUtils.IdOf | src/services/tvdb/series/utils.ts:142-145 | a number id is kept exactly when it is neither 0 nor NaN; a string id gives a positive number; nothing else gives an id |
| SeriesUtils.EntryIdPrefersId | src/services/tvdb/series/utils.ts:142 | `tvdb_id` is read only when `id` is null or undefined |
| SeriesUtils.MapSeriesEntry | src/services/tvdb/series/utils.ts:125-178 | an entry comes only from an object, carries its declared type, id and name, passes the filter, and has a truthy id and a trimmed non-empty name; its overview is the first usable text of `overview`, `synopsis` and the translations of the record and of its `series` record (EntryOverview), and its first-aired date that of `firstAired`, `first_air_date`, `first_release.date`, `series.firstAired`, `series.first_air_date`, `year` (EntryFirstAired) |
| SeriesUtils.MapSeriesEntryKeeps | src/services/tvdb/series/utils.ts:129-151 | an object with a known type that passes the filter, an id and a name is never dropped |
| SeriesUtils.PresentMembers | src/services/tvdb/series/utils.ts:87 | the null filter keeps exactly the mapped entries that are not null, in their order and as often as they occur |
| SeriesUtils.KeptEntriesNormalized | src/services/tvdb/series/utils.ts:84-87 | every kept entry is normalised and of the filtered type |
| SeriesUtils.NormalizeSearchResults | src/services/tvdb/series/utils.ts:79-89 | a prefix of the kept entries, in their order: the first `limit` of them, or all when fewer were kept; a negative limit drops that many from the end (`slice(0, limit)`); each entry normalised and of the filtered type |
| SeriesSearch.TranslateTvdbError | src/services/tvdb/series/index.ts:66-86 | 404 and 401 get their fixed messages; otherwise the server's message, else the status text or "unknown"; a non-HTTP error keeps its own message |
| SeriesSearch.TranslatedStatusReadsBack | src/services/tvdb/series/index.ts:83-85 | the status can be read back from the message |
| SeriesSearch.RequestCarriesOptions | src/services/tvdb/series/index.ts:31 | a request carries the candidate as `query` and every other option unchanged |
| SeriesSearch.SearchSeries | src/services/tvdb/series/index.ts:11-64 | the loop returns what Search specifies and sends the queries it lists |
| SeriesSearch.SearchBlankTerm | src/services/tvdb/series/index.ts:16-19 | a blank term returns nothing without any request |
| SeriesSearch.SearchTriesTermFirst | src/services/tvdb/series/index.ts:16-31 | the first request carries the trimmed term |
| SeriesSearch.AttemptsSendFreshQueries | src/services/tvdb/series/index.ts:26-36 | the queries sent are trimmed candidates in candidate order, never blank, never equal up to case to each other or to one tried before |
| SeriesSearch.AttemptsMoveOnUntilLast | src/services/tvdb/series/index.ts:47-55 | every request before the last one got no results or a 400 |
| SeriesSearch.AttemptsEnd | src/services/tvdb/series/index.ts:47-59 | results come from the last request; an error is the translated failure of the last request; an empty result means every request moved on |
| SeriesSearch.StopIsNot400 | src/services/tvdb/series/index.ts:51-57 | a 400 moves on, and only a failure other than 400 stops the search |
| SeriesSearch.AttemptsExhaust | src/services/tvdb/series/index.ts:26-59 | an empty result means every non-blank candidate was sent, up to case |
| SeriesSearch.SkipStale | src/services/tvdb/series/index.ts:26-36 | skipping a blank or already sent candidate keeps every earlier non-blank candidate accounted for |
| SeriesSearch.SendAndMoveOn | src/services/tvdb/series/index.ts:36-55 | a request that moves on accounts for its candidate and for every one the rest of the loop accounts for |
| SeriesSearch.AttemptsSkipNothing | src/services/tvdb/series/index.ts:26-59 | whatever the outcome, the loop stops at some candidate: the last request carries it when the search ended with results or an error, all candidates were consumed otherwise, and every non-blank candidate before it was sent or tried before, up to case |
| SeriesSearch.SearchSkipsNothing | src/services/tvdb/series/index.ts:11-64 | the same for `searchSeries` over the term and its fallback queries |
| SeriesSearch.FirstOfItsCaseBehind | src/services/tvdb/series/index.ts:32-36 | a query first of its case among the later candidates stays first behind a head that differs from it in lowercase |
| SeriesSearch.FirstOfEachCaseSkip | src/services/tvdb/series/index.ts:28-35 | skipping a blank or already tried candidate keeps every later query first of its case |
| SeriesSearch.FirstOfEachCaseSend | src/services/tvdb/series/index.ts:32-37 | sending the head candidate, then only queries that differ from it in lowercase, keeps each query first of its case |
| SeriesSearch.AttemptsSendFirstOfEachCase | src/services/tvdb/series/index.ts:26-37 | of candidates that read the same once trimmed and lowercased, only the first can be sent: every query sent is a trimmed candidate that no earlier candidate matches in lowercase |
| SeriesSearch.SearchSendsFirstOfEachCase | src/services/tvdb/series/index.ts:11-37 | the same for `searchSeries` over the term and its fallback queries |
| ConversationMemory.CloneSeries | src/state/conversationMemory.ts:47-55 | the copy has the same five fields |
| ConversationMemory.CloneAll | src/state/conversationMemory.ts:36 | the copies are taken entry by entry, in order |
| ConversationMemory.CloneAllEqual | src/state/conversationMemory.ts:47-55 | a copied list equals the original |
| ConversationMemory.Updated | src/state/conversationMemory.ts:25-38 | every field the update defines is taken from it (an explicit null too); every other field keeps its value |
| ConversationMemory.UpdatedIdempotent | src/state/conversationMemory.ts:25-38 | applying the same update twice changes nothing more |
| ConversationMemory.UpdatedCommute | src/state/conversationMemory.ts:25-38 | updates of disjoint fields commute |
| ConversationMemory.Store.constructor | src/state/conversationMemory.ts:10-15 | the store starts with no term, no title and no results |
| ConversationMemory.Store.Get | src/state/conversationMemory.ts:17-23 | returns a value equal to the stored state and changes nothing |
| ConversationMemory.Store.Update | src/state/conversationMemory.ts:25-38 | the new state is Updated of the old one |
| ConversationMemory.Store.Reset | src/state/conversationMemory.ts:40-45 | the new state is the initial state |
| PlannerUtils.DetermineStrategy | src/llm/planner/utils.ts:3-8 | reuse exactly for the string "reuse-results", a fresh search for anything else |
| PlannerUtils.CleanSuggestions | src/llm/planner/utils.ts:18-22 | no longer than the input; every suggestion non-empty and trimmed |
| PlannerUtils.CleanSuggestionsMembers | src/llm/planner/utils.ts:18-22 | a text is kept exactly when it is the trimmed form of a string entry that is not blank |
| PlannerUtils.CleanSuggestionsAppend | src/llm/planner/utils.ts:18-22 | the cleaning works entry by entry and keeps the order |
| PlannerUtils.CleanSuggestionsOfClean | src/llm/planner/utils.ts:18-22 | clean suggestions come through unchanged |
| PlannerUtils.NormalizeSearchPlan | src/llm/planner/utils.ts:10-32 | fails exactly for a payload that is not an object; the query passes through; a string explanation is trimmed and anything else gives the empty text; array suggestions are cleaned by CleanSuggestions and anything else gives none; reuse exactly when asked for |
| PlannerUtils.NormalizeIdempotent | src/llm/planner/utils.ts:10-32 | normalising a normalised plan gives it back |
| MessageUtils.PartText | src/llm/messageUtils.ts:19-27 | a string part is itself; another part contributes its `text` when that is a string, and nothing otherwise |
| MessageUtils.ExtractMessageText | src/llm/messageUtils.ts:7-32 | nothing for a non-object message; string content unchanged; array content is the concatenation of its parts' texts (PartsText); nothing for content that is neither string nor array |
| MessageUtils.PartsTextAppend | src/llm/messageUtils.ts:17-29 | array content is flattened in order |
| MessageUtils.PartsTextOfStrings | src/llm/messageUtils.ts:17-29 | content made of strings reads as their concatenation |
| MessageUtils.PartsTextSkips | src/llm/messageUtils.ts:26 | a part that is neither a string nor carries a `text` string adds nothing |
| Planner.LastTerm | src/llm/planner/index.ts:61 | the trimmed last search term, present exactly when one is stored |
| Planner.FallbackLimit | src/llm/planner/index.ts:79 | the number of cached results, or 6 when there are none; never 0 |
| Planner.PatchMissingQuery | src/llm/planner/index.ts:51-87 | the in-place patch gives what Patched specifies |
| Planner.PatchIdentity | src/llm/planner/index.ts:51-64 | the patch is the identity unless the value is an object asking for reuse and a last term is known |
| Planner.FillSame | src/llm/planner/index.ts:70-84 | one back-fill sets its key unless the value there is acceptable |
| Planner.FillOther | src/llm/planner/index.ts:70-84 | one back-fill leaves every other key alone |
| Planner.FilledQueryFields | src/llm/planner/index.ts:66-84 | `query` and `q` keep a usable string and otherwise take the last term; `limit` keeps a finite number and otherwise takes the fallback limit; `offset` keeps a finite number and otherwise takes 0 |
| Planner.FilledQueryOthers | src/llm/planner/index.ts:66-84 | no other query property changes |
| Planner.PatchTouchesOnlyQuery | src/llm/planner/index.ts:51-87 | a patch only replaces `query`, with the filled record (an empty one when there was none) |
| Planner.PatchedPlanReuses | src/llm/planner/index.ts:47-72 | a patched plan normalises, asks for reuse and has a usable query text |
| Planner.Planned | src/llm/planner/index.ts:18-49 | a blank message fails before any model call; a model failure, empty output or output that does not parse fails with its message; otherwise the patched, normalised plan |
| Planner.PlanSearch | src/llm/planner/index.ts:18-49 | returns what Planned specifies; the model is asked exactly when the message is not blank |
| Cli.SomePhraseIn | src/cli/main.ts:181 | true exactly when some phrase occurs in the text |
| Cli.ShouldForceReuse | src/cli/main.ts:179-182 | true exactly when the lowercased message contains a reuse phrase |
| Cli.ForceReuseIgnoresCase | src/cli/main.ts:180 | the phrase test does not see case |
| Cli.ForcedReuse | src/cli/main.ts:60-66 | the plan changes exactly when it is a fresh search, results are cached and the message matches a phrase; then only its strategy changes |
| Cli.NormalizeEntityTypeForSearch | src/cli/main.ts:184-191 | a type is kept exactly for "series" and "movie" |
| Cli.QueryProperty | src/cli/main.ts:136-141 | reading a query property fails exactly when the plan has no query |
| Cli.FourDigitsFrom | src/cli/main.ts:171 | the first place where four digits follow each other, or none |
| Cli.ParseFirstAiredYear | src/cli/main.ts:163-177 | null for a missing or empty date; the parsed year when the date parses; else the value of the first run of four digits, null exactly when there is none |
| Cli.DeriveYear | src/cli/main.ts:155-161 | the placeholder exactly when the date is missing, empty or does not parse; else the year's decimal text |
| Cli.DeriveRecommendations | src/cli/main.ts:119-127 | one recommendation per entry, in order, with its id, its name as title, its type, its overview or the placeholder for a missing one, and the year DeriveYear gives for its date |
| Cli.Ids | src/cli/main.ts:93 | the ids of the results, in order |
| Cli.IdsOfRecommendations | src/cli/main.ts:119-127 | the remembered ids are those of the recommendations |
| Cli.AcceptedFacts | src/cli/main.ts:134-146 | the filters keep, in order and as often as they occur, exactly the cached entries of the requested type whose year reads as the requested one or later; no filter keeps everything |
| Cli.AcceptedCounts | src/cli/main.ts:134-146 | each entry that passes both filters is kept as often as the cache holds it, every other entry not at all |
| Cli.CachedSelectionFacts | src/cli/main.ts:129-153 | an order-preserving selection of the cache: the accepted entries cut to a positive limit, exactly that many when enough are accepted, all of them when fewer are, uncut for a limit that is not positive; fails only without a query |
| Cli.ApplyPlanToCachedResults | src/cli/main.ts:129-153 | the step-by-step filtering gives what CachedSelection specifies |
| Cli.BuildSearchOptions | src/cli/main.ts:207-217 | the plan's normalised type, network, company, year, country and language with the limit, nothing else; fails only without a query |
| Cli.AsSeries | src/cli/main.ts:204 | the raw entries, read one by one at their declared type; an error passes through |
| Cli.Resolved | src/cli/main.ts:193-205 | with reuse asked and results cached, the cached selection; otherwise the failure of building options when the plan has no query; otherwise the catalog search of the term without options, read at the declared type |
| Cli.ResolveResults | src/cli/main.ts:193-205 | returns what Resolved specifies; with reuse it sends no request, otherwise exactly the requests of the search |
| Cli.Remembered | src/cli/main.ts:91-96 | remembers the term, the ids, the results and the first title |
| Cli.RememberedState | src/cli/main.ts:91-96 | after a shown turn the memory holds what the turn showed, whatever it held before |
| Cli.TurnPlan | src/cli/main.ts:57-66 | the planner's failure, or its plan switched to reuse by ForcedReuse |
| Cli.TurnOf | src/cli/main.ts:43-109 | skipped exactly for a blank line, exited exactly for "exit" in any case; a failed plan is the error; otherwise the search term is the plan's, the results are what the plan resolves to, a failed resolution is the error, and results are shown, with the plan's suggestions, exactly when resolution succeeded with some results and the summary succeeded; a resolution with no entries is "no matches" with the first suggestion, if any; a failed summary is its error; no matches means no results |
| Cli.AfterTurn | src/cli/main.ts:88-96 | the memory changes only after a turn that showed results, and then records them |
| Cli.RunTurn | src/cli/main.ts:43-111 | the outcome, results and search term are those of TurnOf from the memory the turn started with, and the new memory is AfterTurn of it; directly: a blank line is skipped, "exit" in any case exits, a turn showing results remembers exactly them, a turn with no matches shows none, every other turn leaves the memory unchanged |
| Cli.RunCli | src/cli/main.ts:40-112 | the outcomes and the final memory are those of Session over the lines from the starting memory, whose properties the Session lemmas state |
| Cli.Session | src/cli/main.ts:43-111 | at most one outcome per line |
| Cli.SessionStep | src/cli/main.ts:43-54 | a session is its first line's turn, then, unless that turn exits, the session of the rest from the memory it left |
| Cli.SessionAdvance | src/cli/main.ts:43-111 | the same step for the turns of the chat loop |
| Cli.SessionWithoutShownKeepsMemory | src/cli/main.ts:80-96 | a session that shows nothing leaves the memory as it found it |
| Cli.SessionStopsAtExit | src/cli/main.ts:51-54 | no outcome but the last is an exit, and a session that ends before the lines do ends with one |
| Cli.TurnsSkipBlankLines | src/cli/main.ts:47-49 | a turn is skipped exactly when its line is blank |
| Cli.SessionSkipsBlankLines | src/cli/main.ts:47-49 | in a session whose turns skip exactly blank lines, each skipped outcome is a blank line and the reverse |
| Cli.SessionOutcomes | src/cli/main.ts:43-111 | the outcomes of the chat loop: at most one per line, no exit but the last, an early end only after an exit, exactly the blank lines skipped |

## Left out

- **Network, tokens and transport.** These are the token cache, expiry and the 401 refresh in `src/infra/tvdbClient.ts`, and the HTTP client. The catalog is a function from query parameters to a reply.
- **The language models.** The planner model, the summarising model and the presenter's "No summary available." fallback are parameters. The prompt texts are data.
- **`JSON.parse`, `JSON.stringify` and `new Date(...).getFullYear()`** are parameters. The JavaScript date grammar and time zones are not modelled.
- **Console I/O.** This covers the readline prompt, every console message, the "Plan:" and "Next:" lines, and the `DEBUG_TVDB_RESULTS` listing with `formatRecommendation`. A turn reports its outcome as a value instead. The entry shim `src/main.ts` is not part of this model.
- **Error text for non-Error throws.** A turn that fails reports the message of the error. The text for a thrown non-`Error` value ("An unexpected error occurred.") is not modelled. `Cli.QueryProperty` words the `TypeError` for a missing query as V8 does.
- **Floating-point numbers.** Fractions are not modelled, so `Math.trunc` of the offset is the identity. Only the finite/NaN/infinite distinction that `Number.isFinite` and truthiness need is kept.
- **Unicode case mapping.** Lowercasing covers ASCII letters and the Kelvin sign, which lowercases to `k`. Other non-ASCII case mappings are not modelled. The lowercased texts themselves can hold any character: the user's message in `shouldForceReuse` (src/cli/main.ts:180), the input checked against "exit" (src/cli/main.ts:51), the search candidates in the set of tried queries (src/services/tvdb/series/index.ts:32), and the type keys and language codes read from the catalog (src/services/tvdb/series/utils.ts:180-199, 290-306). The outcomes are still those of full case mapping: every text they are compared with is ASCII (the reuse phrases, "exit", the type words, the language aliases, the `[a-z]{2,3}` code test). Of the search candidates, all but the term itself are fallback queries made of `\w` characters only, which are ASCII, so the tried set compares at most one text that is not ASCII with ASCII texts. The only other character whose full lowercase form holds an ASCII letter is U+0130, which lowercases to "i" followed by U+0307; no compared text holds U+0307, and no reuse phrase ends in "i". White space is the full set that `trim` and `\s` recognise.
- **The `visited` set of `extractOverviewFromTranslations`.** A `Json` value has no cycles and no sharing, so the guard never fires. The depth bound is kept.
- **The `constants.js` of the series utilities is not part of this model.** Its four constants are parameters.
- **`deriveSearchLimit` and `deriveSearchTerm`** are not defined anywhere in the repository. They are parameters of a turn.
- **Reading raw search entries.** The loop passes the raw entries straight to the recommendation and memory code. The field reads that would throw on a malformed entry are not modelled: a parameter reads each entry at its declared type.
- **Array copies.** The copies `getConversationState` and `applyPlanToCachedResults` take are implicit. Sequences are values, so no caller can change the store through them.
- Planner.PatchMissingQuery: a parsed value whose `query` is an array is left unchanged. JavaScript would set the four properties on the array object, and those are lost when the plan is read back. The aliasing of the parsed object, which the patch mutates and returns, is not modelled either.
- Cli.RunCli: models a finite list of input lines; the end of input stands for the end of the loop.
