/** gateway/session/store.py and gateway/storage/cold.py: the session table and the offload store. */
module Store {
  import opened JsonValues

  /** One stored turn.  Times are integers, payloads are Python dictionaries. */
  datatype Row = Row(id: string, sessionId: string, parent: Option<string>, model: Json, provider: string,
                     input: Option<Fields>, output: Option<Fields>, usage: Json,
                     coldKey: Option<string>, createdAt: int, ttlAt: Option<int>)

  type Table = map<string, Row>

  type ColdMap = map<string, Json>

  /** `ttl_at IS NOT NULL AND ttl_at < as_of`. */
  predicate Expired(row: Row, asOf: int) {
    row.ttlAt.Some? && row.ttlAt.value < asOf
  }

  function Purge(table: Table, asOf: int): (r: Table)
    ensures forall id :: id in r <==> id in table && (table[id].ttlAt.None? || asOf <= table[id].ttlAt.value)
    ensures forall id :: id in r ==> r[id] == table[id]
  {
    map id | id in table && !Expired(table[id], asOf) :: table[id]
  }

  /** The primary key: every row is stored under its own id. */
  predicate Keyed(table: Table) {
    forall id :: id in table ==> table[id].id == id
  }

  class SessionStore {
    var table: Table

    constructor ()
      ensures table == map[]
    {
      table := map[];
    }

    /** Fails, changing nothing, when the id is taken. */
    method Insert(record: Row) returns (ok: bool)
      modifies this
      ensures ok == (record.id !in old(table))
      ensures table == if ok then old(table)[record.id := record] else old(table)
      ensures Keyed(old(table)) ==> Keyed(table)
    {
      ok := record.id !in table;
      if ok {
        table := table[record.id := record];
      }
    }

    method GetById(responseId: string) returns (row: Option<Row>)
      ensures row == if responseId in table then Some(table[responseId]) else None
    {
      row := if responseId in table then Some(table[responseId]) else None;
    }

    method DeleteExpired(asOf: int) returns (count: nat)
      modifies this
      ensures table == Purge(old(table), asOf)
      ensures count == |old(table).Keys - table.Keys|
    {
      var doomed := set id | id in table && Expired(table[id], asOf);
      count := |doomed|;
      ghost var before := table;
      table := table - doomed;
      assert doomed == before.Keys - table.Keys;
    }
  }

  /** The in-memory backend; the key is the one the backend draws at random. */
  class InMemoryColdStorage {
    var data: ColdMap

    constructor ()
      ensures data == map[]
    {
      data := map[];
    }

    method Put(key: string, payload: Json)
      modifies this
      ensures data == old(data)[key := payload]
    {
      data := data[key := payload];
    }

    /** None stands for ColdStorageUnavailableError. */
    method GetPayload(key: string) returns (payload: Option<Json>)
      ensures payload == if key in data then Some(data[key]) else None
    {
      payload := if key in data then Some(data[key]) else None;
    }
  }

  /** What a component sees of its cold storage: None when none is configured. */
  function ColdView(cold: InMemoryColdStorage?): Option<ColdMap>
    reads cold
  {
    if cold == null then None else Some(cold.data)
  }
}
