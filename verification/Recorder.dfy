/** gateway/session/recorder.py: the row of a finished turn, its offload and its insertion. */
module Recorder {
  import opened JsonValues
  import opened Store

  /** The row as first built, with both payloads inline. */
  function InlineRow(responseId: string, request: Fields, response: Fields, provider: string, model: Json,
                     sessionId: Option<string>, parentId: Option<string>, newSessionId: string,
                     now: int, ttl: int): Row
  {
    Row(responseId,
        if sessionId.Some? && sessionId.value != "" then sessionId.value else newSessionId,
        parentId, model, provider, Some(request), Some(response), Get(response, "usage"),
        None, now, Some(now + ttl))
  }

  /** The same row once its payloads are in cold storage. */
  function Offloaded(row: Row, key: string): Row {
    row.(input := None, output := None, coldKey := Some(key))
  }

  function ColdPayload(request: Fields, response: Fields): Json {
    Obj(map["input" := Obj(request), "output" := Obj(response)])
  }

  /** A stored row keeps its turn's request and response, inline or in one cold object, never half of each. */
  predicate Kept(row: Row, request: Fields, response: Fields, cold: Option<ColdMap>) {
    || (row.coldKey == None && row.input == Some(request) && row.output == Some(response))
    || (row.coldKey.Some? && row.coldKey.value != "" && row.input == None && row.output == None
        && cold.Some? && row.coldKey.value in cold.value
        && cold.value[row.coldKey.value] == ColdPayload(request, response))
  }

  /** The row of one turn: its own id and parent, the inherited session or else the new one, and its times. */
  predicate Describes(row: Row, responseId: string, response: Fields, provider: string, model: Json,
                      sessionId: Option<string>, parentId: Option<string>, newSessionId: string, now: int, ttl: int)
  {
    && row.id == responseId && row.parent == parentId && row.provider == provider && row.model == model
    && (sessionId.Some? && sessionId.value != "" ==> row.sessionId == sessionId.value)
    && (sessionId == None || sessionId == Some("") ==> row.sessionId == newSessionId)
    && row.createdAt == now && row.ttlAt == Some(now + ttl) && row.usage == Get(response, "usage")
  }

  /** The table once the row has been inserted, offloaded under `key` if there is one; unchanged if its id is taken. */
  function TableAfter(before: Table, row: Row, key: Option<string>): Table {
    if row.id in before then before else before[row.id := if key.Some? then Offloaded(row, key.value) else row]
  }

  /** Cold storage once a payload has been offered to it: one object more, or as before when the payload is small or
      the put fails. */
  function ColdAfter(before: Option<ColdMap>, payload: Json, large: bool, key: Option<string>): Option<ColdMap> {
    if before.Some? && large && key.Some? then Some(before.value[key.value := payload]) else before
  }

  class SessionRecorder {
    const store: SessionStore
    const cold: InMemoryColdStorage?
    const ttl: int
    const threshold: int

    constructor (store: SessionStore, cold: InMemoryColdStorage?, ttl: int, threshold: int)
      ensures this.store == store && this.cold == cold && this.ttl == ttl && this.threshold == threshold
    {
      this.store, this.cold, this.ttl, this.threshold := store, cold, ttl, threshold;
    }

    /** Stores a finished turn.  `size` is the serialised size of both payloads; `key` is the key drawn by the
        put, or None when the put fails; `newSessionId` is the session id drawn when none is inherited.  False
        when the insert is refused. */
    method Record(responseId: string, request: Fields, response: Fields, provider: string, model: Json,
                  sessionId: Option<string>, parentId: Option<string>, storeFlag: bool,
                  newSessionId: string, now: int, size: nat, key: Option<string>) returns (ok: bool)
      requires key.Some? ==> key.value != ""
      modifies store, cold
      ensures !storeFlag ==> ok && store.table == old(store.table) && ColdView(cold) == old(ColdView(cold))
      ensures storeFlag ==> ok == (responseId !in old(store.table))
      ensures storeFlag && !ok ==> store.table == old(store.table)
      ensures storeFlag && ok ==>
                && responseId in store.table
                && store.table == old(store.table)[responseId := store.table[responseId]]
                && Kept(store.table[responseId], request, response, ColdView(cold))
                && var row := store.table[responseId];
                && Describes(row, responseId, response, provider, model, sessionId, parentId, newSessionId, now, ttl)
                && (row.coldKey.Some? <==> cold != null && size > threshold && key.Some?)
                && (row.coldKey.Some? ==> row.coldKey == key)
      ensures storeFlag ==>
                store.table ==
                TableAfter(old(store.table),
                           InlineRow(responseId, request, response, provider, model, sessionId, parentId, newSessionId, now, ttl),
                           if cold != null && size > threshold then key else None)
      ensures storeFlag ==>
                ColdView(cold) == ColdAfter(old(ColdView(cold)), ColdPayload(request, response), size > threshold, key)
    {
      if !storeFlag {
        return true;
      }
      var rec := InlineRow(responseId, request, response, provider, model, sessionId, parentId, newSessionId, now, ttl);
      if cold != null && size > threshold {
        if key.Some? {
          cold.Put(key.value, ColdPayload(request, response));
          rec := Offloaded(rec, key.value);
        }
      }
      ok := store.Insert(rec);
    }
  }
}
