/**
 * The conversation memory of the chat loop (src/state/conversationMemory.ts):
 * one store holding the last search term, the last title shown, and the ids
 * and entries of the last results, read as a copy, updated field by field
 * and reset.
 */
module ConversationMemory {
  import opened Wrappers
  import opened Json
  import opened SeriesUtils

  /** A snapshot of the store, as `getConversationState` hands it out. */
  datatype ConversationState = ConversationState(
    lastSearchTerm: Option<string>,
    lastResultTitle: Option<string>,
    lastResultIds: seq<Num>,
    lastResults: seq<SeriesEntry>)

  /** The state the store starts in and returns to on reset. */
  const InitialState: ConversationState := ConversationState(None, None, [], [])

  /**
   * A `Partial<ConversationState>`: the outer `None` is a property left
   * `undefined`; for the two text fields `Some(None)` is an explicit `null`.
   */
  datatype StateUpdate = StateUpdate(
    lastSearchTerm: Option<Option<string>>,
    lastResultTitle: Option<Option<string>>,
    lastResultIds: Option<seq<Num>>,
    lastResults: Option<seq<SeriesEntry>>)

  /** `cloneSeries`: a fresh record with the same five fields. */
  function CloneSeries(entry: SeriesEntry): (r: SeriesEntry)
    ensures r.id == entry.id && r.name == entry.name && r.overview == entry.overview
    ensures r.firstAired == entry.firstAired && r.entityType == entry.entityType
  {
    SeriesEntry(entry.id, entry.name, entry.overview, entry.firstAired, entry.entityType)
  }

  /** `entries.map(cloneSeries)` */
  function CloneAll(entries: seq<SeriesEntry>): (r: seq<SeriesEntry>)
    ensures |r| == |entries| && forall i :: 0 <= i < |r| ==> r[i] == CloneSeries(entries[i])
  {
    seq(|entries|, i requires 0 <= i < |entries| => CloneSeries(entries[i]))
  }

  /** A copy of a list of entries is equal to it. */
  lemma CloneAllEqual(entries: seq<SeriesEntry>)
    ensures CloneAll(entries) == entries
  {
  }

  /** What the store holds after an update: every field the update defines, and the old value elsewhere. */
  function Updated(state: ConversationState, update: StateUpdate): (r: ConversationState)
    ensures r.lastSearchTerm == update.lastSearchTerm.GetOr(state.lastSearchTerm)
    ensures r.lastResultTitle == update.lastResultTitle.GetOr(state.lastResultTitle)
    ensures r.lastResultIds == update.lastResultIds.GetOr(state.lastResultIds)
    ensures r.lastResults == update.lastResults.GetOr(state.lastResults)
  {
    CloneAllEqual(update.lastResults.GetOr([]));
    ConversationState(
      update.lastSearchTerm.GetOr(state.lastSearchTerm),
      update.lastResultTitle.GetOr(state.lastResultTitle),
      update.lastResultIds.GetOr(state.lastResultIds),
      if update.lastResults.Some? then CloneAll(update.lastResults.value) else state.lastResults)
  }

  /** Applying the same update twice changes nothing more. */
  lemma UpdatedIdempotent(state: ConversationState, update: StateUpdate)
    ensures Updated(Updated(state, update), update) == Updated(state, update)
  {
  }

  /** Updates of disjoint fields commute. */
  lemma UpdatedCommute(state: ConversationState, a: StateUpdate, b: StateUpdate)
    requires a.lastSearchTerm.None? || b.lastSearchTerm.None?
    requires a.lastResultTitle.None? || b.lastResultTitle.None?
    requires a.lastResultIds.None? || b.lastResultIds.None?
    requires a.lastResults.None? || b.lastResults.None?
    ensures Updated(Updated(state, a), b) == Updated(Updated(state, b), a)
  {
  }

  /** The module-level store. */
  class Store {
    var lastSearchTerm: Option<string>
    var lastResultTitle: Option<string>
    var lastResultIds: seq<Num>
    var lastResults: seq<SeriesEntry>

    /** The fields as one value. */
    function State(): ConversationState
      reads this
    {
      ConversationState(lastSearchTerm, lastResultTitle, lastResultIds, lastResults)
    }

    /** The store as the module initialises it. */
    constructor ()
      ensures State() == InitialState
    {
      lastSearchTerm := None;
      lastResultTitle := None;
      lastResultIds := [];
      lastResults := [];
    }

    /** `getConversationState`: a copy equal to the stored state; the store is left as it was. */
    method Get() returns (r: ConversationState)
      ensures r == State()
    {
      CloneAllEqual(lastResults);
      r := ConversationState(lastSearchTerm, lastResultTitle, lastResultIds, CloneAll(lastResults));
    }

    /** `updateConversationState`: every field the update defines is assigned (a `null` too), the others keep their value. */
    method Update(update: StateUpdate)
      modifies this
      ensures State() == Updated(old(State()), update)
    {
      if update.lastSearchTerm.Some? {
        lastSearchTerm := update.lastSearchTerm.value;
      }
      if update.lastResultTitle.Some? {
        lastResultTitle := update.lastResultTitle.value;
      }
      if update.lastResultIds.Some? {
        lastResultIds := update.lastResultIds.value;
      }
      if update.lastResults.Some? {
        lastResults := CloneAll(update.lastResults.value);
      }
    }

    /** `resetConversationState`: back to the initial state. */
    method Reset()
      modifies this
      ensures State() == InitialState
    {
      lastSearchTerm := None;
      lastResultTitle := None;
      lastResultIds := [];
      lastResults := [];
    }
  }
}
