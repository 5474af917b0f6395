/** Every step of the protocol keeps its invariants. */
module Preservation {
  import opened JsonValues
  import opened Store
  import opened Resolver
  import opened Recorder
  import opened Protocol
  import opened Invariants
  import opened Lineages

  // ---------- What other requests do leaves a flight alone ----------

  /** No row of a stored turn came back to the table. */
  ghost predicate NoneBack(turns: seq<Turn>, before: Table, after: Table) {
    forall x :: x in after && Find(turns, x).Some? ==> x in before
  }

  lemma {:induction false} GoneStaysGone(env: Env, past: seq<Turn>, turns: seq<Turn>, parent: string, k: nat, before: Table, after: Table)
    requires TurnsOk(env, turns) && past <= turns && Find(past, parent).Some? && NoneBack(turns, before, after)
    requires k < |Lineage(past, Some(parent))| && Lineage(past, Some(parent))[k].row.id !in before
    ensures Lineage(past, Some(parent))[k].row.id !in after
  {
    PrefixOk(env, past, turns);
    LineageFacts(env, past, parent);
    FindExtends(env, past, turns, Lineage(past, Some(parent))[k].row.id);
  }

  lemma {:induction false} WalkStays(env: Env, turns: seq<Turn>, turns': seq<Turn>, before: Table, after: Table, f: Flight)
    requires f.phase.Walking? && WalkOk(turns, before, f)
    requires TurnsOk(env, turns) && turns <= turns' && NoneBack(turns, before, after)
    ensures WalkOk(turns', after, f)
  {
    var p := f.phase;
    if p.cur.None? && |p.trail| < |Lineage(p.start.past, Some(p.parent.id))| {
      GoneStaysGone(env, p.start.past, turns, p.parent.id, |p.trail|, before, after);
    }
    forall id | id in after && Find(p.start.past, id).Some? ensures id in p.start.snapshot {
      FindExtends(env, p.start.past, turns, id);
    }
  }

  lemma {:induction false} CallStays(env: Env, turns: seq<Turn>, turns': seq<Turn>, before: Table, after: Table, f: Flight)
    requires f.phase.Calling? && CallOk(turns, before, f)
    requires TurnsOk(env, turns) && turns <= turns' && NoneBack(turns, before, after)
    ensures CallOk(turns', after, f)
  {
    var p := f.phase;
    if p.resolved.parentId.Some? && p.used < |Lineage(p.past, p.resolved.parentId)| {
      GoneStaysGone(env, p.past, turns, p.resolved.parentId.value, p.used, before, after);
    }
  }

  lemma {:induction false} PendingStays(a: Env, b: Env, turns: seq<Turn>, turns': seq<Turn>, id: string, f: Flight, row: Row, response: Fields)
    requires PendingOk(a, turns, id, f, row, response)
    requires EnvGrows(a, b) && TurnsOk(b, turns') && turns <= turns'
    ensures PendingOk(b, turns', id, f, row, response)
  {
    if row.parent.Some? {
      FindExtends(b, turns, turns', row.parent.value);
    }
  }

  lemma {:induction false} FlightStays(a: Env, b: Env, turns: seq<Turn>, turns': seq<Turn>, before: Table, after: Table, id: string, f: Flight)
    requires FlightOk(a, turns, before, id, f) && TurnsOk(a, turns)
    requires EnvGrows(a, b) && TurnsOk(b, turns') && turns <= turns' && NoneBack(turns, before, after)
    requires f.phase.Over? || Find(turns', id) == None
    ensures FlightOk(b, turns', after, id, f)
  {
    match f.phase
    case Walking(_, _, _, _, _) => WalkStays(a, turns, turns', before, after, f);
    case Calling(_, _, _) => CallStays(a, turns, turns', before, after, f);
    case Saving(row, response) => PendingStays(a, b, turns, turns', id, f, row, response);
    case Inserting(row, response) => PendingStays(a, b, turns, turns', id, f, row, response);
    case Starting =>
    case Over(_) =>
  }

  /** All flights but one survive a step that grows the environment and the turns and brings no row back. */
  lemma {:induction false} OthersStay(s: Sys, s': Sys, id: string)
    requires Inv(s) && EnvGrows(EnvOf(s), EnvOf(s')) && TurnsOk(EnvOf(s'), s'.turns)
    requires s.turns <= s'.turns && NoneBack(s.turns, s.table, s'.table)
    requires forall x :: x in s'.flights && x != id ==> x in s.flights && s'.flights[x] == s.flights[x]
    requires forall x :: x in s'.flights && x != id && Find(s.turns, x) == None ==> Find(s'.turns, x) == None
    ensures forall x :: x in s'.flights && x != id ==> FlightOk(EnvOf(s'), s'.turns, s'.table, x, s'.flights[x])
  {
    forall x | x in s'.flights && x != id ensures FlightOk(EnvOf(s'), s'.turns, s'.table, x, s'.flights[x]) {
      FlightStays(EnvOf(s), EnvOf(s'), s.turns, s'.turns, s.table, s'.table, x, s.flights[x]);
    }
  }

  // ---------- One lemma for each step ----------

  /** A step that changes only one flight's phase. */
  lemma {:induction false} MoveKeeps(s: Sys, id: string, phase: Phase)
    requires Inv(s) && id in s.flights
    requires FlightOk(EnvOf(s), s.turns, s.table, id, s.flights[id].(phase := phase))
    ensures Inv(Move(s, id, phase))
  {
  }

  /** A step that changes only one flight's phase and lets the environment grow. */
  lemma {:induction false} GrowKeeps(s: Sys, s': Sys, id: string)
    requires Inv(s) && EnvGrows(EnvOf(s), EnvOf(s'))
    requires s'.turns == s.turns && s'.table == s.table
    requires s'.flights == s.flights || (id in s.flights && id in s'.flights && s'.flights == s.flights[id := s'.flights[id]]
                                           && s'.flights[id].store == s.flights[id].store)
    requires id in s'.flights ==> FlightOk(EnvOf(s'), s.turns, s.table, id, s'.flights[id])
    ensures Inv(s')
  {
    TurnsStay(EnvOf(s), EnvOf(s'), s.turns);
    OthersStay(s, s', id);
  }

  lemma {:induction false} BeginKeeps(s: Sys, a: Action)
    requires Inv(s) && a.Begin? && Enabled(s, a)
    ensures Inv(Step(s, a))
  {
    FindIn(s.turns, a.id);
    assert EnvOf(Step(s, a)) == EnvOf(s);
  }

  lemma {:induction false} StoredAreKept(env: Env, turns: seq<Turn>)
    requires TurnsOk(env, turns)
    ensures KeptAll(turns, env.cold)
  {
    forall t | t in turns ensures Kept(t.row, t.request, t.response, env.cold) {
      StoredFits(env, turns, t);
    }
  }

  lemma {:induction false} FetchParentKeeps(s: Sys, id: string)
    requires Inv(s) && id in s.flights && s.flights[id].phase.Starting?
    ensures Inv(FetchParentStep(s, id))
  {
    var f := s.flights[id];
    var prev := Get(f.request, PREV);
    if !Truthy(prev) {
      MoveKeeps(s, id, Calling(Resolved(f.request, None, None), 0, s.turns));
    } else if CheckParent(s.table, prev, f.provider, s.clock).Err? {
      MoveKeeps(s, id, Over(Some(CheckParent(s.table, prev, f.provider, s.clock).error)));
    } else {
      LineageFacts(EnvOf(s), s.turns, prev.s);
      StoredAreKept(EnvOf(s), s.turns);
      assert RowIds([]) == {};
      MoveKeeps(s, id, Walking(s.table[prev.s], [], {}, Some(prev.s), Start(s.table, ColdOf(s), s.clock, s.turns)));
    }
  }

  /** The row the walk finds is the next one of the lineage. */
  lemma {:induction false} NextIsLineage(s: Sys, f: Flight)
    requires Inv(s) && f.phase.Walking? && WalkOk(s.turns, s.table, f) && f.phase.cur.Some?
    ensures var l, k := Lineage(f.phase.start.past, Some(f.phase.parent.id)), |f.phase.trail|;
            && TurnsOk(EnvOf(s), f.phase.start.past) && IsLineage(l) && k < |l|
            && f.phase.cur == Some(l[k].row.id) && l[k].row.id != ""
            && Find(f.phase.start.past, l[k].row.id) == Some(l[k])
            && (l[k].row.id in s.table ==> s.table[l[k].row.id] == l[k].row)
  {
    var p := f.phase;
    var l, k := Lineage(p.start.past, Some(p.parent.id)), |p.trail|;
    PrefixOk(EnvOf(s), p.start.past, s.turns);
    LineageFacts(EnvOf(s), p.start.past, p.parent.id);
    FindExtends(EnvOf(s), p.start.past, s.turns, l[k].row.id);
    FindIn(s.turns, l[k].row.id);
    IdsNonEmpty(EnvOf(s), s.turns, l[k]);
  }

  lemma {:induction false} PositionAdvances(l: seq<Turn>, trail: seq<Row>, visited: set<string>, table: Table)
    requires IsLineage(l) && trail <= Rows(l) && |trail| < |l| && visited == RowIds(trail)
    ensures var next := l[|trail|].row;
            WalkPosition(l, trail + [next], visited + {next.id}, next.parent, table)
  {
  }

  lemma {:induction false} FoundRowKeeps(s: Sys, id: string, cur: string)
    requires Inv(s) && id in s.flights && s.flights[id].phase.Walking? && s.flights[id].phase.cur == Some(cur)
    requires cur in s.table
    ensures var f := s.flights[id];
            var next := f.phase.(trail := f.phase.trail + [s.table[cur]], visited := f.phase.visited + {cur},
                                 cur := s.table[cur].parent);
            WalkOk(s.turns, s.table, f.(phase := next))
  {
    var f := s.flights[id];
    var p := f.phase;
    assert FlightOk(EnvOf(s), s.turns, s.table, id, f);
    NextIsLineage(s, f);
    PositionAdvances(Lineage(p.start.past, Some(p.parent.id)), p.trail, p.visited, s.table);
  }

  lemma {:induction false} LookupKeeps(s: Sys, id: string)
    requires Inv(s) && id in s.flights && s.flights[id].phase.Walking? && More(s.flights[id].phase)
    ensures Inv(LookupStep(s, id))
  {
    var p := s.flights[id].phase;
    var cur := p.cur.value;
    if cur in s.table {
      FoundRowKeeps(s, id, cur);
      MoveKeeps(s, id, p.(trail := p.trail + [s.table[cur]], visited := p.visited + {cur}, cur := s.table[cur].parent));
    } else {
      MoveKeeps(s, id, p.(visited := p.visited + {cur}, cur := None));
    }
  }

  /** The guard against revisiting never ends a walk: the next ancestor has not been visited. */
  lemma {:induction false} GuardNeverFires(s: Sys, f: Flight)
    requires Inv(s) && f.phase.Walking? && WalkOk(s.turns, s.table, f) && f.phase.cur.Some?
    ensures More(f.phase)
  {
    NextIsLineage(s, f);
  }

  lemma {:induction false} ReverseRows(ts: seq<Turn>)
    ensures Reverse(Rows(ts)) == Rows(Reverse(ts))
  {
  }

  /** Messages rebuilt from a walked trail are the conversation of the turns walked. */
  lemma {:induction false} TrailIsConversation(env: Env, past: seq<Turn>, parent: string, trail: seq<Row>)
    requires TurnsOk(env, past) && Find(past, parent).Some? && trail <= Rows(Lineage(past, Some(parent)))
    ensures Reconstruct(Reverse(trail), env.cold) == Conversation(Used(past, Some(parent), |trail|))
  {
    var l := Lineage(past, Some(parent));
    LineageKept(env, past, parent);
    assert trail == Rows(l[..|trail|]);
    ReverseRows(l[..|trail|]);
    ReconstructIsConversation(Reverse(l[..|trail|]), env.cold);
  }

  lemma {:induction false} EndWalkKeeps(s: Sys, id: string)
    requires Inv(s) && id in s.flights && s.flights[id].phase.Walking? && !More(s.flights[id].phase)
    ensures Inv(EndWalkStep(s, id))
  {
    var f := s.flights[id];
    var p := f.phase;
    if p.cur.Some? {
      GuardNeverFires(s, f);
    }
    PrefixOk(EnvOf(s), p.start.past, s.turns);
    TrailIsConversation(EnvOf(s), p.start.past, p.parent.id, p.trail);
    match Reconstruct(Reverse(p.trail), ColdOf(s))
    case Err(e) => MoveKeeps(s, id, Over(Some(e)));
    case Ok(history) =>
      MoveKeeps(s, id, Calling(Resolved(Expand(f.request, history), Some(p.parent.sessionId), Some(p.parent.id)),
                               |p.trail|, p.start.past));
  }

  /** The row built for an answered request fits the stored turns. */
  lemma {:induction false} AnsweredRowFits(env: Env, turns: seq<Turn>, id: string, f: Flight, table: Table, row: Row)
    requires TurnsOk(env, turns) && f.phase.Calling? && CallOk(turns, table, f) && id != ""
    requires row.id == id && row.provider == f.provider && row.parent == f.phase.resolved.parentId
    requires row.createdAt == env.clock && row.ttlAt == Some(env.clock + env.ttl)
    requires row.parent == None ==> row.sessionId != "" && row.sessionId in env.drawn && env.drawn[row.sessionId] == id
    requires row.parent.Some? && f.phase.resolved.sessionId != Some("") ==> Some(row.sessionId) == f.phase.resolved.sessionId
    ensures RowFits(env, turns, row)
  {
    if row.parent.Some? {
      FindExtends(env, f.phase.past, turns, row.parent.value);
      FindIn(turns, row.parent.value);
      StoredFits(env, turns, Find(turns, row.parent.value).value);
    }
  }

  lemma {:induction false} RespondKeeps(s: Sys, id: string, response: Fields, newSession: string)
    requires Inv(s) && id in s.flights && s.flights[id].phase.Calling?
    requires newSession != "" && newSession !in s.drawn
    ensures Inv(RespondStep(s, id, response, newSession))
  {
    var f := s.flights[id];
    var s' := RespondStep(s, id, response, newSession);
    if !f.store {
      MoveKeeps(s, id, Over(None));
    } else {
      AnsweringGrows(s, id, response, newSession);
      AnsweredRowKept(s, id, response, newSession);
      GrowKeeps(s, s', id);
    }
  }

  lemma {:induction false} AnsweringGrows(s: Sys, id: string, response: Fields, newSession: string)
    requires id in s.flights && s.flights[id].phase.Calling? && newSession !in s.drawn
    ensures EnvGrows(EnvOf(s), EnvOf(RespondStep(s, id, response, newSession)))
  {
  }

  lemma {:induction false} AnsweredRowKept(s: Sys, id: string, response: Fields, newSession: string)
    requires TurnsOk(EnvOf(s), s.turns) && id in s.flights && s.flights[id].phase.Calling? && s.flights[id].store
    requires newSession != "" && newSession !in s.drawn
    requires FlightOk(EnvOf(s), s.turns, s.table, id, s.flights[id])
    ensures var s' := RespondStep(s, id, response, newSession);
            FlightOk(EnvOf(s'), s.turns, s.table, id, s'.flights[id])
  {
    var s' := RespondStep(s, id, response, newSession);
    TurnsStay(EnvOf(s), EnvOf(s'), s.turns) by { AnsweringGrows(s, id, response, newSession); }
    AnsweredRowFits(EnvOf(s'), s.turns, id, s.flights[id], s.table, s'.flights[id].phase.row);
  }

  lemma {:induction false} ColdPutKeeps(s: Sys, a: Action)
    requires Inv(s) && a.ColdPut? && Enabled(s, a)
    ensures Inv(Step(s, a))
  {
    var s' := Step(s, a);
    assert PendingOk(EnvOf(s'), s.turns, a.id, s'.flights[a.id], s'.flights[a.id].phase.row, s'.flights[a.id].phase.response);
    GrowKeeps(s, s', a.id);
  }

  lemma {:induction false} InsertKeeps(s: Sys, id: string)
    requires Inv(s) && id in s.flights && s.flights[id].phase.Inserting?
    ensures Inv(InsertStep(s, id))
  {
    assert FlightOk(EnvOf(s), s.turns, s.table, id, s.flights[id]);
    if id in s.table {
      MoveKeeps(s, id, Over(None));
    } else {
      NewTurnKeeps(s, id);
    }
  }

  lemma {:induction false} NewTurnKeeps(s: Sys, id: string)
    requires Inv(s) && id in s.flights && s.flights[id].phase.Inserting? && id !in s.table
    requires FlightOk(EnvOf(s), s.turns, s.table, id, s.flights[id])
    ensures Inv(InsertStep(s, id))
  {
    var p, s' := s.flights[id].phase, InsertStep(s, id);
    var t := Turn(p.row, s.flights[id].request, p.response);
    assert EnvOf(s') == EnvOf(s);
    TurnsAppend(EnvOf(s), s.turns, t);
    InsertKeepsTable(s, s', t);
    InsertKeepsFlights(s, s', t);
  }

  lemma {:induction false} InsertKeepsFlights(s: Sys, s': Sys, t: Turn)
    requires Inv(s) && t.row.id in s.flights && EnvOf(s') == EnvOf(s)
    requires s'.turns == s.turns + [t] && TurnsOk(EnvOf(s'), s'.turns) && s'.table == s.table[t.row.id := t.row]
    requires s'.flights == s.flights[t.row.id := s.flights[t.row.id].(phase := Over(None))]
    requires forall x :: x != t.row.id ==> Find(s'.turns, x) == Find(s.turns, x)
    requires Find(s.turns, t.row.id) == None
    ensures forall x :: x in s'.flights ==> FlightOk(EnvOf(s'), s'.turns, s'.table, x, s'.flights[x])
  {
    OthersStay(s, s', t.row.id);
  }

  lemma {:induction false} TurnsAppend(env: Env, turns: seq<Turn>, t: Turn)
    requires TurnsOk(env, turns) && Find(turns, t.row.id) == None && RowFits(env, turns, t.row)
    requires Kept(t.row, t.request, t.response, env.cold)
    ensures TurnsOk(env, turns + [t])
    ensures Init(turns + [t]) == turns
    ensures forall x :: x != t.row.id ==> Find(turns + [t], x) == Find(turns, x)
    ensures forall u :: u in turns + [t] <==> u in turns || u == t
  {
  }

  lemma {:induction false} InsertKeepsTable(s: Sys, s': Sys, t: Turn)
    requires Inv(s) && t.row.id !in s.table && Find(s.turns, t.row.id) == None
    requires s'.turns == s.turns + [t] && Init(s'.turns) == s.turns && s'.table == s.table[t.row.id := t.row]
    ensures TableOk(s'.turns, s'.table) && Closed(s'.turns, s'.table)
  {
    forall u | u in s'.turns && u.row.parent.Some? && u.row.parent.value in s'.table ensures u.row.id in s'.table {
      if u in s.turns {
        StoredFits(EnvOf(s), s.turns, u);
      }
    }
  }

  lemma {:induction false} CleanupKeeps(s: Sys, asOf: int)
    requires Inv(s)
    ensures Inv(s.(table := Purge(s.table, asOf)))
  {
    var s' := s.(table := Purge(s.table, asOf));
    assert EnvOf(s') == EnvOf(s);
    forall t | t in s.turns && t.row.parent.Some? && t.row.parent.value in s'.table ensures t.row.id in s'.table {
      StoredFits(EnvOf(s), s.turns, t);
      StoredIsFound(EnvOf(s), s.turns, t);
      var parent := Find(s.turns, t.row.parent.value).value;
      FindIn(s.turns, t.row.parent.value);
      StoredFits(EnvOf(s), s.turns, parent);
    }
    FlightsStay(s, s');
  }

  /** Steps that touch no flight at all. */
  lemma {:induction false} FlightsStay(s: Sys, s': Sys)
    requires Inv(s) && EnvGrows(EnvOf(s), EnvOf(s')) && s'.turns == s.turns && s'.flights == s.flights
    requires NoneBack(s.turns, s.table, s'.table)
    ensures TurnsOk(EnvOf(s'), s'.turns)
    ensures forall x :: x in s'.flights ==> FlightOk(EnvOf(s'), s'.turns, s'.table, x, s'.flights[x])
  {
    TurnsStay(EnvOf(s), EnvOf(s'), s.turns);
    forall x | x in s'.flights ensures FlightOk(EnvOf(s'), s'.turns, s'.table, x, s'.flights[x]) {
      FlightStays(EnvOf(s), EnvOf(s'), s.turns, s'.turns, s.table, s'.table, x, s.flights[x]);
    }
  }

  // ---------- Every step, every run ----------

  lemma {:induction false} StepKeeps(s: Sys, a: Action)
    requires Inv(s)
    ensures Inv(Step(s, a))
  {
    if Enabled(s, a) {
      match a
      case Begin(_, _, _, _, _) => BeginKeeps(s, a);
      case FetchParent(id) => FetchParentKeeps(s, id);
      case Lookup(id) => LookupKeeps(s, id);
      case EndWalk(id) => EndWalkKeeps(s, id);
      case Respond(id, response, newSession) => RespondKeeps(s, id, response, newSession);
      case ColdPut(_, _) => ColdPutKeeps(s, a);
      case KeepInline(id) => MoveKeeps(s, id, Inserting(s.flights[id].phase.row, s.flights[id].phase.response));
      case Insert(id) => InsertKeeps(s, id);
      case Fail(id) => MoveKeeps(s, id, Over(None));
      case Orphan(_, _) => FlightsStay(s, Step(s, a));
      case Cleanup(asOf) => CleanupKeeps(s, asOf);
      case Tick(_) => FlightsStay(s, Step(s, a));
    }
  }

  /** The invariants hold after every run from an initial state. */
  lemma {:induction false} RunKeeps(s: Sys, run: seq<Action>)
    requires Initial(s)
    ensures Inv(Run(s, run))
  {
    if run != [] {
      RunKeeps(s, Init(run));
      StepKeeps(Run(s, Init(run)), Last(run));
    }
  }
}
