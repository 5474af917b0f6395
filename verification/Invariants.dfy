/** The invariants of the session protocol. */
module Invariants {
  import opened JsonValues
  import opened Store
  import opened Resolver
  import opened Recorder
  import opened Protocol

  // ---------- Looking up stored turns ----------

  function Find(turns: seq<Turn>, id: string): (r: Option<Turn>)
    ensures r.Some? ==> r.value.row.id == id
  {
    if turns == [] then None
    else if Last(turns).row.id == id then Some(Last(turns))
    else Find(Init(turns), id)
  }

  /** The turn with the id and its ancestors, newest first; each is searched among the turns stored earlier. */
  function Lineage(turns: seq<Turn>, id: Option<string>): seq<Turn> {
    if turns == [] then []
    else if Some(Last(turns).row.id) == id then [Last(turns)] + Lineage(Init(turns), Last(turns).row.parent)
    else Lineage(Init(turns), id)
  }

  function Rows(turns: seq<Turn>): (r: seq<Row>)
    ensures |r| == |turns|
    ensures forall k :: 0 <= k < |turns| ==> r[k] == turns[k].row
  {
    seq(|turns|, k requires 0 <= k < |turns| => turns[k].row)
  }

  // ---------- Stored turns ----------

  /** The parts of the state a row's validity depends on; they only ever grow. */
  datatype Env = Env(ttl: int, cold: Option<ColdMap>, clock: int, drawn: map<string, string>)

  function EnvOf(s: Sys): Env {
    Env(s.ttl, ColdOf(s), s.clock, s.drawn)
  }

  ghost predicate EnvGrows(a: Env, b: Env) {
    && a.ttl == b.ttl && a.clock <= b.clock && (a.cold.Some? <==> b.cold.Some?)
    && (a.cold.Some? ==> forall k :: k in a.cold.value ==> k in b.cold.value && b.cold.value[k] == a.cold.value[k])
    && (forall k :: k in a.drawn ==> k in b.drawn && b.drawn[k] == a.drawn[k])
  }

  /** A child shares provider and session with its parent and was recorded no earlier. */
  predicate Descends(parent: Row, child: Row) {
    parent.provider == child.provider && parent.sessionId == child.sessionId && parent.createdAt <= child.createdAt
  }

  /** A row, stored or about to be, against the turns stored before it. */
  predicate RowFits(env: Env, turns: seq<Turn>, row: Row) {
    && row.id != "" && row.sessionId != ""
    && row.ttlAt == Some(row.createdAt + env.ttl) && row.createdAt <= env.clock
    && match row.parent
       case None => row.sessionId in env.drawn && env.drawn[row.sessionId] == row.id
       case Some(p) => Find(turns, p).Some? && Descends(Find(turns, p).value.row, row)
  }

  /** Each turn has a new id, fits the turns before it and keeps its payloads. */
  predicate TurnsOk(env: Env, turns: seq<Turn>) {
    turns != [] ==>
      && TurnsOk(env, Init(turns))
      && Find(Init(turns), Last(turns).row.id) == None
      && RowFits(env, Init(turns), Last(turns).row)
      && Kept(Last(turns).row, Last(turns).request, Last(turns).response, env.cold)
  }

  /** The table holds rows of stored turns only. */
  predicate TableOk(turns: seq<Turn>, table: Table) {
    forall id :: id in table ==> Find(turns, id).Some? && Find(turns, id).value.row == table[id]
  }

  /** A stored turn outlives its parent: there is never a hole in a chain. */
  predicate Closed(turns: seq<Turn>, table: Table) {
    forall t :: t in turns && t.row.parent.Some? && t.row.parent.value in table ==> t.row.id in table
  }

  // ---------- Requests in flight ----------

  function RowIds(rows: seq<Row>): set<string> {
    set r | r in rows :: r.id
  }

  /** Where the walk of `parent`'s ancestors stands: `trail` is the newest part of the lineage, and either the
      next ancestor is looked up next, or the lineage is complete, or its next row is gone for good. */
  predicate WalkPosition(lineage: seq<Turn>, trail: seq<Row>, visited: set<string>, cur: Option<string>, table: Table) {
    && trail <= Rows(lineage)
    && (cur.Some? ==> |trail| < |lineage| && cur.value == lineage[|trail|].row.id && visited == RowIds(trail))
    && (cur.None? && |trail| < |lineage| ==> lineage[|trail|].row.id !in table)
  }

  /** No row known at the snapshot came back after it was deleted. */
  predicate NoReturn(past: seq<Turn>, snapshot: Table, table: Table) {
    && TableOk(past, snapshot)
    && forall id :: id in table && Find(past, id).Some? ==> id in snapshot
  }

  /** Every turn can be read back. */
  predicate KeptAll(turns: seq<Turn>, cold: Option<ColdMap>) {
    forall t :: t in turns ==> Kept(t.row, t.request, t.response, cold)
  }

  predicate WalkOk(turns: seq<Turn>, table: Table, f: Flight)
    requires f.phase.Walking?
  {
    var p, start := f.phase, f.phase.start;
    && start.past <= turns
    && Find(start.past, p.parent.id).Some? && Find(start.past, p.parent.id).value.row == p.parent
    && p.parent.provider == f.provider && Get(f.request, PREV) == Str(p.parent.id)
    && WalkPosition(Lineage(start.past, Some(p.parent.id)), p.trail, p.visited, p.cur, table)
    && NoReturn(start.past, start.snapshot, table)
    && p.parent.id in start.snapshot && !Expired(p.parent, start.now)
    && (forall r :: r in p.trail ==> r.id in start.snapshot)
    && KeptAll(start.past, start.cold)
  }

  // ---------- What a turn contributes to later requests ----------

  /** A turn's own contribution: its non-system input, then its message and function_call outputs. */
  function Own(request: Fields, response: Fields): Result<seq<Json>, Failure> {
    Join(Ok(WithoutSystem(NormalizeInput(GetOr(request, "input", Arr([]))))),
         OutputMessages(GetOr(response, "output", Arr([]))))
  }

  /** What the code rebuilds of an offloaded turn: the whole stored request as one item, and no output. */
  function OffloadedOwn(request: Fields): Result<seq<Json>, Failure> {
    Ok(WithoutSystem([Obj(request)]))
  }

  function Contribution(t: Turn): Result<seq<Json>, Failure> {
    if t.row.coldKey == None then Own(t.request, t.response) else OffloadedOwn(t.request)
  }

  /** The contributions of a chronological chain of turns, joined in order. */
  function Conversation(turns: seq<Turn>): Result<seq<Json>, Failure> {
    if turns == [] then Ok([]) else Join(Conversation(Init(turns)), Contribution(Last(turns)))
  }

  /** The turns a resolved request builds on, in chronological order. */
  function Used(past: seq<Turn>, parentId: Option<string>, used: nat): seq<Turn>
    requires used <= |Lineage(past, parentId)|
  {
    Reverse(Lineage(past, parentId)[..used])
  }

  predicate CallOk(turns: seq<Turn>, table: Table, f: Flight)
    requires f.phase.Calling?
  {
    var p := f.phase;
    match p.resolved.parentId
    case None =>
      !Truthy(Get(f.request, PREV)) && p.resolved.sessionId == None && p.resolved.request == f.request
    case Some(parent) =>
      && p.past <= turns && Find(p.past, parent).Some? && Get(f.request, PREV) == Str(parent)
      && Find(p.past, parent).value.row.provider == f.provider
      && p.resolved.sessionId == Some(Find(p.past, parent).value.row.sessionId)
      && p.used <= |Lineage(p.past, Some(parent))|
      && Conversation(Used(p.past, Some(parent), p.used)).Ok?
      && p.resolved.request == Expand(f.request, Conversation(Used(p.past, Some(parent), p.used)).value)
      && (p.used < |Lineage(p.past, Some(parent))| ==> Lineage(p.past, Some(parent))[p.used].row.id !in table)
  }

  predicate PendingOk(env: Env, turns: seq<Turn>, id: string, f: Flight, row: Row, response: Fields) {
    row.id == id && row.provider == f.provider && RowFits(env, turns, row) && Kept(row, f.request, response, env.cold)
  }

  predicate FlightOk(env: Env, turns: seq<Turn>, table: Table, id: string, f: Flight) {
    && id != ""
    && (f.phase.Over? || Find(turns, id) == None)
    && (f.phase.Walking? ==> WalkOk(turns, table, f))
    && (f.phase.Calling? ==> CallOk(turns, table, f))
    && (f.phase.Saving? || f.phase.Inserting? ==> f.store)
    && (f.phase.Saving? ==> f.phase.row.coldKey == None && PendingOk(env, turns, id, f, f.phase.row, f.phase.response))
    && (f.phase.Inserting? ==> PendingOk(env, turns, id, f, f.phase.row, f.phase.response))
  }

  ghost predicate Inv(s: Sys) {
    && TurnsOk(EnvOf(s), s.turns)
    && TableOk(s.turns, s.table)
    && Closed(s.turns, s.table)
    && (forall t :: t in s.turns ==> t.row.id in s.flights && s.flights[t.row.id].store)
    && forall id :: id in s.flights ==> FlightOk(EnvOf(s), s.turns, s.table, id, s.flights[id])
  }
}
