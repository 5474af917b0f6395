/** gateway/api.py: the two ways a turn is answered, what the client is sent and what is recorded. */
module Api {
  import opened JsonValues
  import opened Store
  import opened Resolver
  import opened Recorder
  import opened Streaming
  import opened StreamFold
  import opened StreamSpelling
  import opened StreamRefinement
  import opened Invariants

  // ---------- Output items as JSON ----------

  /** The keys of an item that have a field of their own; `extra` speaks for all others only. */
  const NAMED := {"id", "type", "content", "arguments"}

  function PartJson(p: Part): Json {
    Obj(p.extra["type" := Str(p.ptype)]["text" := Str(p.text)])
  }

  function PartsJson(parts: seq<Part>): seq<Json> {
    if parts == [] then [] else PartsJson(Init(parts)) + [PartJson(Last(parts))]
  }

  function ItemJson(item: Item): Json {
    var rest := item.extra - NAMED;
    var base := if item.itype.Some? then rest["type" := Str(item.itype.value)] else rest;
    var named := if item.id.Some? then base["id" := Str(item.id.value)] else base;
    var filled := if item.content.Some? then named["content" := Arr(PartsJson(item.content.value))] else named;
    Obj(if item.arguments.Some? then filled["arguments" := Str(item.arguments.value)] else filled)
  }

  function ItemsJson(items: seq<Item>): seq<Json> {
    if items == [] then [] else ItemsJson(Init(items)) + [ItemJson(Last(items))]
  }

  /** `final_state()` as the dictionary that is recorded. */
  function FinalJson(final: Final, newId: string): Fields {
    final.fields["output" := Arr(ItemsJson(final.output))]["id" := Str(newId)]
  }

  /** What is recorded for a stream that ended cleanly. */
  function StreamedResponse(newId: string, source: seq<Event>): Fields {
    var trace := Events(Forward(RewriteAll(Some(newId), source)));
    OrderIsCovered(trace);
    FinalJson(Final(Accumulate(trace).response, Output(Accumulate(trace))), newId)
  }

  // ---------- Answering ----------

  /** How the provider's stream ended: by itself, by an error the gateway knows, or by any other exception. */
  datatype Ending = Clean | GatewayFailure(error: Json) | OtherFailure

  /** What a streamed turn does, in order: a line of the response body, the record of the turn, the last line. */
  datatype Effect = Data(event: Event) | Stored(id: string) | Terminator

  function DataLines(events: seq<Event>): (r: seq<Effect>)
    ensures |r| == |events|
    ensures forall k :: 0 <= k < |events| ==> r[k] == Data(events[k])
  {
    seq(|events|, k requires 0 <= k < |events| => Data(events[k]))
  }

  function FailedEvent(newId: string, error: Json): Event {
    Event(Failed, None, Null, 0, "", NO_ITEM,
          Some(map["id" := Str(newId), "status" := Str("failed"), "error" := error]), map[])
  }

  /** The event that tells a known error: failed, under the gateway's id, with the error's body. */
  predicate TellsFailure(e: Event, newId: string, error: Json) {
    && e.kind == Failed && e.itemId == None && e.extra.Keys == {}
    && e.response.Some? && e.response.value.Keys == {"id", "status", "error"}
    && e.response.value["id"] == Str(newId) && e.response.value["status"] == Str("failed") && e.response.value["error"] == error
  }

  lemma {:induction false} FailedEventTells(newId: string, error: Json)
    ensures TellsFailure(FailedEvent(newId, error), newId, error)
  {
  }

  lemma {:induction false} TwoMore(sent: seq<Effect>, a: Effect, b: Effect)
    ensures var all := sent + [a, b];
            |all| == |sent| + 2 && all[..|sent|] == sent && all[|sent|] == a && Last(all) == b
  {
  }

  /** What recording needs to know about a turn besides its payloads. */
  datatype Exchange = Exchange(newId: string, payload: Fields, provider: string, model: Json, resolved: Resolved,
                       storeFlag: bool, newSession: string, now: int, size: nat, key: Option<string>)

  /** The table gained the turn's row: under its own id, with the inherited session, parent and expiry, and with the
      client's own request and the response, inline or in cold storage. */
  predicate Recorded(t: Exchange, response: Fields, before: Table, after: Table, cold: Option<ColdMap>, ttl: int) {
    && t.newId !in before && t.newId in after && after == before[t.newId := after[t.newId]]
    && Kept(after[t.newId], t.payload, response, cold)
    && Describes(after[t.newId], t.newId, response, t.provider, t.model, t.resolved.sessionId, t.resolved.parentId,
                 t.newSession, t.now, ttl)
  }

  class Gateway {
    const store: SessionStore
    const cold: InMemoryColdStorage?
    const recorder: SessionRecorder

    constructor (store: SessionStore, cold: InMemoryColdStorage?, ttl: int, threshold: int)
      ensures this.store == store && this.cold == cold && Wired()
      ensures recorder.ttl == ttl && recorder.threshold == threshold
    {
      this.store, this.cold := store, cold;
      recorder := new SessionRecorder(store, cold, ttl, threshold);
    }

    predicate Wired() {
      recorder.store == store && recorder.cold == cold
    }

    /** Cold storage after the turn has been offered to the recorder. */
    function ColdThen(t: Exchange, response: Fields, before: Option<ColdMap>): Option<ColdMap> {
      if t.storeFlag then ColdAfter(before, ColdPayload(t.payload, response), t.size > recorder.threshold, t.key) else before
    }

    method RecordTurn(t: Exchange, response: Fields) returns (ok: bool)
      requires Wired() && (t.key.Some? ==> t.key.value != "")
      modifies store, cold
      ensures ok == (!t.storeFlag || t.newId !in old(store.table))
      ensures !t.storeFlag || !ok ==> store.table == old(store.table)
      ensures t.storeFlag && ok ==> Recorded(t, response, old(store.table), store.table, ColdView(cold), recorder.ttl)
      ensures ColdView(cold) == ColdThen(t, response, old(ColdView(cold)))
    {
      ok := recorder.Record(t.newId, t.payload, response, t.provider, t.model, t.resolved.sessionId, t.resolved.parentId,
                            t.storeFlag, t.newSession, t.now, t.size, t.key);
    }

    /** The non-streaming turn; `answer` is None when the call failed.  The recorded request is the client's own,
        not the expanded one. */
    method PlainTurn(t: Exchange, answer: Option<Fields>) returns (response: Option<Fields>)
      requires Wired() && (t.key.Some? ==> t.key.value != "")
      modifies store, cold
      ensures answer.None? ==> response == None && store.table == old(store.table) && ColdView(cold) == old(ColdView(cold))
      ensures answer.Some? ==>
                var own := answer.value["id" := Str(t.newId)];
                && response == (if t.storeFlag && t.newId in old(store.table) then None else Some(own))
                && (if t.storeFlag && response.Some?
                    then Recorded(t, own, old(store.table), store.table, ColdView(cold), recorder.ttl)
                    else store.table == old(store.table))
                && ColdView(cold) == ColdThen(t, own, old(ColdView(cold)))
    {
      if answer.None? {
        return None;
      }
      var own := answer.value["id" := Str(t.newId)];
      var ok := RecordTurn(t, own);
      response := if ok then Some(own) else None;
    }

    /** One bridge, fed the whole source: what it forwards and the final state it ends with. */
    method Relay(newId: string, source: seq<Event>) returns (forwarded: seq<Event>, final: Final)
      ensures forwarded == Events(Forward(RewriteAll(Some(newId), source)))
      ensures FinalJson(final, newId) == StreamedResponse(newId, source)
    {
      var bridge := new StreamBridge(Some(newId));
      forwarded := bridge.Tee(source);
      assert bridge.seen == RewriteAll(Some(newId), source) by {
        assert [] + RewriteAll(Some(newId), source) == RewriteAll(Some(newId), source);
      }
      assert bridge.sent == forwarded by { assert [] + forwarded == forwarded; }
      final := bridge.FinalState();
    }

    /** The streaming turn: everything forwarded, then the record, then the terminator.  A known error is told by a
        `response.failed` event before the terminator; only an exception stops recording, so a provider's own
        `response.failed` is forwarded and the turn recorded.  `finished` is false when the body breaks off. */
    method StreamTurn(t: Exchange, source: seq<Event>, ending: Ending) returns (effects: seq<Effect>, finished: bool)
      requires Wired() && (t.key.Some? ==> t.key.value != "")
      modifies store, cold
      ensures var sent := DataLines(Events(Forward(RewriteAll(Some(t.newId), source))));
              match ending
              case Clean =>
                && finished == (!t.storeFlag || t.newId !in old(store.table))
                && effects == sent + if !finished then [] else if t.storeFlag then [Stored(t.newId), Terminator] else [Terminator]
              case GatewayFailure(error) =>
                finished && |effects| == |sent| + 2 && effects[..|sent|] == sent && Last(effects) == Terminator
                && effects[|sent|].Data? && TellsFailure(effects[|sent|].event, t.newId, error)
              case OtherFailure => !finished && effects == sent
      ensures if Stored(t.newId) in effects
              then Recorded(t, StreamedResponse(t.newId, source), old(store.table), store.table, ColdView(cold), recorder.ttl)
              else store.table == old(store.table)
      ensures ColdView(cold) ==
              if ending.Clean? then ColdThen(t, StreamedResponse(t.newId, source), old(ColdView(cold))) else old(ColdView(cold))
    {
      var forwarded, final := Relay(t.newId, source);
      effects := DataLines(forwarded);
      finished := true;
      match ending {
        case OtherFailure =>
          finished := false;
        case GatewayFailure(error) =>
          FailedEventTells(t.newId, error);
          TwoMore(effects, Data(FailedEvent(t.newId, error)), Terminator);
          effects := effects + [Data(FailedEvent(t.newId, error)), Terminator];
        case Clean =>
          finished := RecordTurn(t, FinalJson(final, t.newId));
          if finished {
            effects := effects + if t.storeFlag then [Stored(t.newId), Terminator] else [Terminator];
          }
      }
    }
  }

  // ---------- Streaming leaves the same history ----------

  /** If the provider's events, with the announcements they leave out spelled out, serialise a response's output, the
      recorded response has that output, and any later turn rebuilds the same messages from it as from the response
      itself. */
  lemma {:induction false} StreamedTurnLeavesSameHistory(newId: string, source: seq<Event>, out: seq<Item>,
                                                         request: Fields, plain: Fields)
    requires Serialises(Spelled(source), out)
    requires GetOr(plain, "output", Arr([])) == Arr(ItemsJson(out))
    ensures Get(StreamedResponse(newId, source), "output") == Arr(ItemsJson(out))
    ensures Get(StreamedResponse(newId, source), "id") == Str(newId)
    ensures Own(request, StreamedResponse(newId, source)) == Own(request, plain)
  {
    BridgeRefinesResponse(Some(newId), source, out);
  }

  // ---------- When the whole record is the same ----------

  const NOT_COMPARED := BUFFERED + {"id"}

  lemma {:induction false} RewrittenReports(newId: string, source: seq<Event>)
    ensures ReportedUsage(RewriteAll(Some(newId), source)) == ReportedUsage(source)
  {
    if source != [] {
      RewriteInit(Some(newId), source);
      RewrittenReports(newId, Init(source));
      var e := Last(source);
      assert ReportsUsage(Rewrite(Some(newId), e)) == ReportsUsage(e);
    }
  }

  /** Rewriting reaches no field of the created events but the id. */
  lemma {:induction false} RewrittenCreated(newId: string, source: seq<Event>)
    ensures CreatedFields(RewriteAll(Some(newId), source)) - {"id"} == CreatedFields(source) - {"id"}
  {
    if source != [] {
      var e := Last(source);
      RewriteInit(Some(newId), source);
      RewrittenCreated(newId, Init(source));
      CreatedStep(source);
      CreatedStep(RewriteAll(Some(newId), source));
      if e.kind.Created? && e.response.Some? {
        RewrittenMerge(CreatedFields(RewriteAll(Some(newId), Init(source))), CreatedFields(Init(source)), e.response.value,
                       Rewrite(Some(newId), e).response.value);
      }
    }
  }

  lemma {:induction false} RewrittenMerge(a: Fields, b: Fields, told: Fields, told': Fields)
    requires a - {"id"} == b - {"id"} && told' - {"id"} == told - {"id"}
    ensures a + told' - {"id"} == b + told - {"id"}
  {
    assert a + told' - {"id"} == (a - {"id"}) + (told' - {"id"});
    assert b + told - {"id"} == (b - {"id"}) + (told - {"id"});
  }

  /** What the fields of a stream come to. */
  lemma {:induction false} StreamedFields(newId: string, source: seq<Event>)
    ensures var r := Accumulate(Events(Forward(RewriteAll(Some(newId), source)))).response;
            && r - NOT_COMPARED == CreatedFields(source) - NOT_COMPARED
            && "usage" in r && r["usage"] == ReportedUsage(source)
  {
    var src := RewriteAll(Some(newId), source);
    ForwardKeepsFields(src);
    RecordedFields(src);
    RewrittenReports(newId, source);
    RewrittenCreated(newId, source);
    WithoutMore(Accumulate(src).response, CreatedFields(src), BUFFERED, {"id"});
    WithoutMore(CreatedFields(src), CreatedFields(source), {"id"}, BUFFERED);
    assert {"id"} + BUFFERED == NOT_COMPARED;
  }

  lemma {:induction false} WithoutMore(a: Fields, b: Fields, keys: set<string>, more: set<string>)
    requires a - keys == b - keys
    ensures a - (keys + more) == b - (keys + more)
  {
    assert a - (keys + more) == a - keys - more && b - (keys + more) == b - keys - more;
  }

  lemma {:induction false} SameRecordIff(r: Fields, plain: Fields, output: Json, id: Json)
    requires "usage" in r && "output" in plain && plain["output"] == output
    ensures r["output" := output]["id" := id] == plain["id" := id] <==>
            r - NOT_COMPARED == plain - NOT_COMPARED && "usage" in plain && plain["usage"] == r["usage"]
  {
    if r["output" := output]["id" := id] == plain["id" := id] {
      SameRecordHas(r, plain, output, id);
    } else if r - NOT_COMPARED == plain - NOT_COMPARED && "usage" in plain && plain["usage"] == r["usage"] {
      SameFieldsSameRecord(r, plain, output, id);
    }
  }

  lemma {:induction false} SameRecordHas(r: Fields, plain: Fields, output: Json, id: Json)
    requires "usage" in r && r["output" := output]["id" := id] == plain["id" := id]
    ensures r - NOT_COMPARED == plain - NOT_COMPARED && "usage" in plain && plain["usage"] == r["usage"]
  {
    var a, b := r["output" := output]["id" := id], plain["id" := id];
    assert "usage" in a && a["usage"] == r["usage"];
    assert "usage" in b && b["usage"] == plain["usage"];
    assert r - NOT_COMPARED == a - NOT_COMPARED;
    assert plain - NOT_COMPARED == b - NOT_COMPARED;
  }

  lemma {:induction false} SameFieldsSameRecord(r: Fields, plain: Fields, output: Json, id: Json)
    requires "usage" in r && "output" in plain && plain["output"] == output
    requires r - NOT_COMPARED == plain - NOT_COMPARED && "usage" in plain && plain["usage"] == r["usage"]
    ensures r["output" := output]["id" := id] == plain["id" := id]
  {
    var a, b := r["output" := output]["id" := id], plain["id" := id];
    forall k | k in a ensures k in b && a[k] == b[k] {
      if k !in NOT_COMPARED {
        assert k in r - NOT_COMPARED && (r - NOT_COMPARED)[k] == (plain - NOT_COMPARED)[k];
      }
    }
    forall k | k in b ensures k in a {
      if k !in NOT_COMPARED {
        assert k in plain - NOT_COMPARED;
      }
    }
    assert a == b;
  }

  /** A stream that serialises the output of a response is recorded as the plain turn would be exactly when its created
      events had every other field of the response, and the usage reported last is the response's. */
  lemma {:induction false} StreamedRecordIsPlainIff(newId: string, source: seq<Event>, out: seq<Item>, plain: Fields)
    requires Serialises(Spelled(source), out)
    requires "output" in plain && plain["output"] == Arr(ItemsJson(out))
    ensures StreamedResponse(newId, source) == plain["id" := Str(newId)] <==>
            && CreatedFields(source) - NOT_COMPARED == plain - NOT_COMPARED
            && "usage" in plain && plain["usage"] == ReportedUsage(source)
  {
    BridgeRefinesResponse(Some(newId), source, out);
    StreamedFields(newId, source);
    SameRecordIff(Accumulate(Events(Forward(RewriteAll(Some(newId), source)))).response, plain, Arr(ItemsJson(out)), Str(newId));
  }
}
