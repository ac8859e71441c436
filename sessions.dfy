/**
 * The `userLastRequests` map of index.js with `saveLastRequest` and `getLastRequest`.
 * `Date.now()` is the explicit parameter `now`, in milliseconds.
 */
module Sessions {
  import opened Wrappers

  type ChatId = int

  /** How long, in milliseconds, a recorded request stays eligible for /regenerate. */
  const FreshnessWindowMs: int := 300000

  /** `{ type, thought, timestamp }` */
  datatype LastRequest = LastRequest(kind: string, thought: string, timestamp: int)

  /** The entry is no more than `FreshnessWindowMs` old at `now` (`now - timestamp > 300000` is stale). */
  predicate IsFresh(r: LastRequest, now: int) {
    now - r.timestamp <= FreshnessWindowMs
  }

  /** `getLastRequest(chatId)` at time `now`: the stored entry itself if it is fresh, otherwise
      nothing. It only reads; a stale entry stays where it is. */
  function Lookup(entries: map<ChatId, LastRequest>, chatId: ChatId, now: int): (r: Option<LastRequest>)
    ensures r.Some? ==> chatId in entries && r.value == entries[chatId] && IsFresh(r.value, now)
    ensures r.None? ==> chatId !in entries || !IsFresh(entries[chatId], now)
  {
    if chatId !in entries || !IsFresh(entries[chatId], now) then None else Some(entries[chatId])
  }

  /** The Map object itself: one entry per chat, replaced whole by every save. */
  class LastRequestStore {
    var entries: map<ChatId, LastRequest>

    constructor ()
      ensures entries == map[]
    {
      entries := map[];
    }

    /** `saveLastRequest(chatId, type, thought)` at time `now`: last write wins, other chats untouched. */
    method Save(chatId: ChatId, kind: string, thought: string, now: int)
      modifies this
      ensures entries == old(entries)[chatId := LastRequest(kind, thought, now)]
      ensures Lookup(entries, chatId, now) == Some(LastRequest(kind, thought, now))
      ensures forall c, t :: c != chatId ==> Lookup(entries, c, t) == Lookup(old(entries), c, t)
    {
      entries := entries[chatId := LastRequest(kind, thought, now)];
    }
  }

  /** A save is read back at any time up to `FreshnessWindowMs` later, and not after that. */
  lemma SaveThenLookup(entries: map<ChatId, LastRequest>, chatId: ChatId, kind: string, thought: string,
                       savedAt: int, now: int)
    ensures Lookup(entries[chatId := LastRequest(kind, thought, savedAt)], chatId, now)
         == if now - savedAt <= FreshnessWindowMs then Some(LastRequest(kind, thought, savedAt)) else None
  {
  }

  /** An entry exactly `FreshnessWindowMs` old is still returned; one millisecond later it is not. */
  lemma WindowBoundary(entries: map<ChatId, LastRequest>, chatId: ChatId)
    requires chatId in entries
    ensures Lookup(entries, chatId, entries[chatId].timestamp + FreshnessWindowMs) == Some(entries[chatId])
    ensures Lookup(entries, chatId, entries[chatId].timestamp + FreshnessWindowMs + 1) == None
  {
  }

  /** Once an entry is stale it stays stale as the clock advances, until a save replaces it. */
  lemma StaleStaysStale(entries: map<ChatId, LastRequest>, chatId: ChatId, now: int, later: int)
    requires now <= later
    requires Lookup(entries, chatId, now).None?
    ensures Lookup(entries, chatId, later).None?
  {
  }
}
