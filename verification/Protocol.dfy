/** The session protocol: many requests in flight at once, each a sequence of separate transactions
    (gateway/api.py with the resolver, the recorder and the store), and cleanups between any two of them. */
module Protocol {
  import opened JsonValues
  import opened Store
  import opened Resolver
  import opened Recorder

  // ---------- State ----------

  /** A turn that was stored: its row, and the request and response the row stands for. */
  datatype Turn = Turn(row: Row, request: Fields, response: Fields)

  /** What a request's first transaction found: the table, cold storage, the time, and the turns stored so far. */
  datatype Start = Start(snapshot: Table, cold: Option<ColdMap>, now: int, past: seq<Turn>)

  /** `Over` carries the failure of resolving the request, if that is what ended it. */
  datatype Phase =
    | Starting
    | Walking(parent: Row, trail: seq<Row>, visited: set<string>, cur: Option<string>, start: Start)
    | Calling(resolved: Resolved, used: nat, past: seq<Turn>)
    | Saving(row: Row, response: Fields)
    | Inserting(row: Row, response: Fields)
    | Over(failure: Option<Failure>)

  datatype Flight = Flight(request: Fields, provider: string, model: Json, store: bool, phase: Phase)

  /** `ttl` and `coldOn` are configuration.  `turns`, `drawn` (which response drew each session id), and in
      a flight `start`, `past` (the turns at its first transaction) and `used` (how many rows its walk found) are
      history: no step depends on them, except that new session ids are fresh. */
  datatype Sys = Sys(ttl: int, coldOn: bool, table: Table, cold: ColdMap, clock: int,
                     flights: map<string, Flight>, turns: seq<Turn>, drawn: map<string, string>)

  function ColdOf(s: Sys): Option<ColdMap> {
    if s.coldOn then Some(s.cold) else None
  }

  ghost predicate Initial(s: Sys) {
    s.table == map[] && s.cold == map[] && s.flights == map[] && s.turns == [] && s.drawn == map[]
  }

  // ---------- Steps ----------

  datatype Action =
    | Begin(id: string, request: Fields, provider: string, model: Json, store: bool)
    | FetchParent(id: string)
    | Lookup(id: string)
    | EndWalk(id: string)
    | Respond(id: string, response: Fields, newSession: string)
    | ColdPut(id: string, key: string)
    | KeepInline(id: string)
    | Insert(id: string)
    | Fail(id: string)
    | Orphan(key: string, payload: Json)
    | Cleanup(asOf: int)
    | Tick(elapsed: nat)

  /** The walk's loop condition. */
  predicate More(p: Phase)
    requires p.Walking?
  {
    p.cur.Some? && p.cur.value != "" && p.cur.value !in p.visited
  }

  /** When a step can happen.  Response ids, session ids and cold keys are drawn fresh. */
  predicate Enabled(s: Sys, a: Action) {
    match a
    case Begin(id, _, _, _, _) => id != "" && id !in s.flights
    case FetchParent(id) => id in s.flights && s.flights[id].phase.Starting?
    case Lookup(id) => id in s.flights && s.flights[id].phase.Walking? && More(s.flights[id].phase)
    case EndWalk(id) => id in s.flights && s.flights[id].phase.Walking? && !More(s.flights[id].phase)
    case Respond(id, _, newSession) =>
      id in s.flights && s.flights[id].phase.Calling? && newSession != "" && newSession !in s.drawn
    case ColdPut(id, key) =>
      s.coldOn && id in s.flights && s.flights[id].phase.Saving? && key != "" && key !in s.cold
    case KeepInline(id) => id in s.flights && s.flights[id].phase.Saving?
    case Insert(id) => id in s.flights && s.flights[id].phase.Inserting?
    case Fail(id) => id in s.flights && !s.flights[id].phase.Over?
    case Orphan(key, _) => key !in s.cold
    case Cleanup(_) => true
    case Tick(_) => true
  }

  function Move(s: Sys, id: string, phase: Phase): Sys
    requires id in s.flights
  {
    s.(flights := s.flights[id := s.flights[id].(phase := phase)])
  }

  /** The first transaction of `resolve`. */
  function FetchParentStep(s: Sys, id: string): Sys
    requires id in s.flights
  {
    var f := s.flights[id];
    var prev := Get(f.request, PREV);
    if !Truthy(prev) then Move(s, id, Calling(Resolved(f.request, None, None), 0, s.turns))
    else
      match CheckParent(s.table, prev, f.provider, s.clock)
      case Err(e) => Move(s, id, Over(Some(e)))
      case Ok(parent) =>
        Move(s, id, Walking(parent, [], {}, Some(prev.s), Start(s.table, ColdOf(s), s.clock, s.turns)))
  }

  /** One iteration of the walk; a missing row ends it. */
  function LookupStep(s: Sys, id: string): Sys
    requires id in s.flights && s.flights[id].phase.Walking? && More(s.flights[id].phase)
  {
    var p := s.flights[id].phase;
    var cur := p.cur.value;
    if cur in s.table
    then Move(s, id, p.(trail := p.trail + [s.table[cur]], visited := p.visited + {cur}, cur := s.table[cur].parent))
    else Move(s, id, p.(visited := p.visited + {cur}, cur := None))
  }

  function EndWalkStep(s: Sys, id: string): Sys
    requires id in s.flights && s.flights[id].phase.Walking?
  {
    var f := s.flights[id];
    match Reconstruct(Reverse(f.phase.trail), ColdOf(s))
    case Err(e) => Move(s, id, Over(Some(e)))
    case Ok(history) =>
      Move(s, id, Calling(Resolved(Expand(f.request, history), Some(f.phase.parent.sessionId), Some(f.phase.parent.id)),
                          |f.phase.trail|, f.phase.start.past))
  }

  /** The model has answered: the id is overridden and, if the turn is to be stored, its row is built. */
  function RespondStep(s: Sys, id: string, response: Fields, newSession: string): Sys
    requires id in s.flights && s.flights[id].phase.Calling?
  {
    var f := s.flights[id];
    if !f.store then Move(s, id, Over(None))
    else
      var own := response["id" := Str(id)];
      var r := f.phase.resolved;
      var row := InlineRow(id, f.request, own, f.provider, f.model, r.sessionId, r.parentId, newSession, s.clock, s.ttl);
      Move(s, id, Saving(row, own)).(drawn := if row.sessionId == newSession then s.drawn[newSession := id] else s.drawn)
  }

  function InsertStep(s: Sys, id: string): Sys
    requires id in s.flights && s.flights[id].phase.Inserting?
  {
    var p := s.flights[id].phase;
    if id in s.table then Move(s, id, Over(None))
    else Move(s, id, Over(None)).(table := s.table[id := p.row],
                                  turns := s.turns + [Turn(p.row, s.flights[id].request, p.response)])
  }

  function Step(s: Sys, a: Action): Sys {
    if !Enabled(s, a) then s
    else match a
      case Begin(id, request, provider, model, store) =>
        s.(flights := s.flights[id := Flight(request, provider, model, store, Starting)])
      case FetchParent(id) => FetchParentStep(s, id)
      case Lookup(id) => LookupStep(s, id)
      case EndWalk(id) => EndWalkStep(s, id)
      case Respond(id, response, newSession) => RespondStep(s, id, response, newSession)
      case ColdPut(id, key) =>
        var p := s.flights[id].phase;
        Move(s, id, Inserting(Offloaded(p.row, key), p.response))
          .(cold := s.cold[key := ColdPayload(s.flights[id].request, p.response)])
      case KeepInline(id) => Move(s, id, Inserting(s.flights[id].phase.row, s.flights[id].phase.response))
      case Insert(id) => InsertStep(s, id)
      case Fail(id) => Move(s, id, Over(None))
      case Orphan(key, payload) => s.(cold := s.cold[key := payload])
      case Cleanup(asOf) => s.(table := Purge(s.table, asOf))
      case Tick(elapsed) => s.(clock := s.clock + elapsed)
  }

  /** The state after a run, from any initial state. */
  function Run(s: Sys, run: seq<Action>): Sys {
    if run == [] then s else Step(Run(s, Init(run)), Last(run))
  }
}
