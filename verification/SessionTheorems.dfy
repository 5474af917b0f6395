/** The main results about the session protocol: statements over every run of interleaved requests and cleanups. */
module SessionTheorems {
  import opened JsonValues
  import opened Store
  import opened Resolver
  import opened Recorder
  import opened Protocol
  import opened Invariants
  import opened Lineages
  import opened Preservation

  // ---------- The stored turns form a forest ----------

  lemma {:induction false} EarlierParent(env: Env, turns: seq<Turn>, k: nat)
    requires TurnsOk(env, turns) && k < |turns| && turns[k].row.parent.Some?
    ensures exists j :: 0 <= j < k && Some(turns[j].row.id) == turns[k].row.parent && Descends(turns[j].row, turns[k].row)
  {
    var rest := Init(turns);
    if k < |rest| {
      EarlierParent(env, rest, k);
      var j :| 0 <= j < k && Some(rest[j].row.id) == rest[k].row.parent && Descends(rest[j].row, rest[k].row);
      assert turns[j] == rest[j];
    } else {
      FindIn(rest, turns[k].row.parent.value);
      var j :| 0 <= j < |rest| && rest[j] == Find(rest, turns[k].row.parent.value).value;
      assert turns[j] == rest[j];
    }
  }

  lemma {:induction false} DistinctTurnIds(env: Env, turns: seq<Turn>, i: nat, j: nat)
    requires TurnsOk(env, turns) && i < j < |turns|
    ensures turns[i].row.id != turns[j].row.id
  {
    if j < |Init(turns)| {
      DistinctTurnIds(env, Init(turns), i, j);
    } else {
      FindIn(Init(turns), turns[j].row.id);
      assert turns[i] in Init(turns);
    }
  }

  /** In every run, ids are never reused, each stored turn's parent was stored strictly before it (deleted since or
      not) with the same provider and session, and the table holds rows of stored turns only. */
  lemma {:induction false} TurnsFormForest(s: Sys, run: seq<Action>)
    requires Initial(s)
    ensures var e := Run(s, run);
            && (forall i, j :: 0 <= i < j < |e.turns| ==> e.turns[i].row.id != e.turns[j].row.id)
            && (forall k :: 0 <= k < |e.turns| && e.turns[k].row.parent.Some? ==>
                  exists j :: 0 <= j < k && Some(e.turns[j].row.id) == e.turns[k].row.parent
                              && Descends(e.turns[j].row, e.turns[k].row))
            && (forall id :: id in e.table ==> exists t :: t in e.turns && t.row == e.table[id] && t.row.id == id)
  {
    var e := Run(s, run);
    RunKeeps(s, run);
    forall i, j | 0 <= i < j < |e.turns| ensures e.turns[i].row.id != e.turns[j].row.id {
      DistinctTurnIds(EnvOf(e), e.turns, i, j);
    }
    forall k | 0 <= k < |e.turns| && e.turns[k].row.parent.Some?
      ensures exists j :: 0 <= j < k && Some(e.turns[j].row.id) == e.turns[k].row.parent
                          && Descends(e.turns[j].row, e.turns[k].row)
    {
      EarlierParent(EnvOf(e), e.turns, k);
    }
    forall id | id in e.table ensures exists t :: t in e.turns && t.row == e.table[id] && t.row.id == id {
      FindIn(e.turns, id);
    }
  }

  // ---------- The walk ----------

  /** In every run, the guard against revisiting never ends a walk. */
  lemma {:induction false} VisitedGuardNeverFires(s: Sys, run: seq<Action>, id: string)
    requires Initial(s) && id in Run(s, run).flights && Run(s, run).flights[id].phase.Walking?
    ensures var p := Run(s, run).flights[id].phase;
            p.cur.Some? ==> p.cur.value != "" && p.cur.value !in p.visited
  {
    RunKeeps(s, run);
    if Run(s, run).flights[id].phase.cur.Some? {
      GuardNeverFires(Run(s, run), Run(s, run).flights[id]);
    }
  }

  predicate StillThere(turns: seq<Turn>, table: Table) {
    forall t :: t in turns ==> t.row.id in table
  }

  lemma {:induction false} InsertDeletesNothing(s: Sys, id: string)
    requires id in s.flights && s.flights[id].phase.Inserting? && s.flights[id].phase.row.id == id
    requires StillThere(s.turns, s.table)
    ensures StillThere(InsertStep(s, id).turns, InsertStep(s, id).table)
  {
  }

  lemma {:induction false} StepDeletesNothing(s: Sys, a: Action)
    requires Inv(s) && StillThere(s.turns, s.table) && !a.Cleanup?
    ensures StillThere(Step(s, a).turns, Step(s, a).table)
  {
    if a.Insert? && Enabled(s, a) {
      assert FlightOk(EnvOf(s), s.turns, s.table, a.id, s.flights[a.id]);
      InsertDeletesNothing(s, a.id);
    } else {
      OnlyInsertAndCleanupTouchTable(s, a);
    }
  }

  lemma {:induction false} OnlyInsertAndCleanupTouchTable(s: Sys, a: Action)
    requires !Enabled(s, a) || (!a.Insert? && !a.Cleanup?)
    ensures Step(s, a).turns == s.turns && Step(s, a).table == s.table
  {
    if Enabled(s, a) {
      match a
      case FetchParent(id) => assert FetchParentStep(s, id).table == s.table;
      case Lookup(id) => assert LookupStep(s, id).table == s.table;
      case EndWalk(id) => assert EndWalkStep(s, id).table == s.table;
      case Respond(id, response, newSession) => assert RespondStep(s, id, response, newSession).table == s.table;
      case _ =>
    }
  }

  lemma {:induction false} NothingDeleted(s: Sys, run: seq<Action>)
    requires Initial(s) && forall a :: a in run ==> !a.Cleanup?
    ensures StillThere(Run(s, run).turns, Run(s, run).table)
  {
    if run != [] {
      assert forall a :: a in Init(run) ==> a in run;
      NothingDeleted(s, Init(run));
      assert Last(run) in run;
      RunKeeps(s, Init(run));
      StepDeletesNothing(Run(s, Init(run)), Last(run));
    }
  }

  lemma {:induction false} AllPresent(l: seq<Turn>, table: Table)
    requires forall k :: 0 <= k < |l| ==> l[k].row.id in table
    ensures Present(l, table) == l
  {
  }

  lemma {:induction false} TableAgrees(turns: seq<Turn>, table: Table)
    requires TableOk(turns, table)
    ensures Agrees(turns, table)
  {
  }

  /** A walk over a good table returns the newest part of the lineage, in chronological order. */
  lemma {:induction false} ChainIsLineage(env: Env, turns: seq<Turn>, table: Table, id: string) returns (l: seq<Turn>)
    requires TurnsOk(env, turns) && TableOk(turns, table) && id in table
    ensures l == Lineage(turns, Some(id)) && IsLineage(l) && l != [] && l[0].row == table[id]
    ensures forall k :: 0 <= k < |l| ==> l[k] in turns
    ensures Trail(table, Some(id), {}) == Rows(Present(l, table)) && 0 < |Present(l, table)| <= |l|
    ensures ParentChain(table, id) == Reverse(Rows(Present(l, table)))
  {
    TableAgrees(turns, table);
    WalkFollowsLineage(env, turns, table, id);
    LineageFacts(env, turns, id);
    LineageMembers(env, turns, id);
    l := Lineage(turns, Some(id));
    PresentIsLongest(l, table, 1);
  }

  /** Until a cleanup happens, the walk from any stored turn returns all its ancestors, from the root to it. */
  lemma {:induction false} WalkIsCompleteBeforeCleanup(s: Sys, run: seq<Action>, id: string)
    requires Initial(s) && (forall a :: a in run ==> !a.Cleanup?) && id in Run(s, run).table
    ensures var e := Run(s, run);
            var chain := ParentChain(e.table, id);
            && chain == Reverse(Rows(Lineage(e.turns, Some(id))))
            && chain != [] && chain[0].parent == None && Last(chain) == e.table[id] && Linked(chain)
  {
    var e := Run(s, run);
    RunKeeps(s, run);
    NothingDeleted(s, run);
    var l := ChainIsLineage(EnvOf(e), e.turns, e.table, id);
    AllPresent(l, e.table);
    WholeLineage(l);
  }

  lemma {:induction false} WholeLineage(l: seq<Turn>)
    requires IsLineage(l) && l != []
    ensures var chain := Reverse(Rows(l));
            chain[0].parent == None && Last(chain) == l[0].row && Linked(chain)
  {
  }

  // ---------- Cleanup never leaves a hole ----------

  function Unexpired(chain: seq<Row>, asOf: int): seq<Row> {
    if chain == [] then []
    else Unexpired(Init(chain), asOf) + if Expired(Last(chain), asOf) then [] else [Last(chain)]
  }

  /** Newest first, no row expires before one further on. */
  predicate ExpiryFalls(trail: seq<Row>) {
    && (forall k :: 0 <= k < |trail| ==> trail[k].ttlAt.Some?)
    && (forall i, j :: 0 <= i < j < |trail| ==> trail[j].ttlAt.value <= trail[i].ttlAt.value)
  }

  lemma {:induction false} NoneExpired(chain: seq<Row>, asOf: int)
    requires forall k :: 0 <= k < |chain| ==> !Expired(chain[k], asOf)
    ensures Unexpired(chain, asOf) == chain
  {
    if chain != [] {
      NoneExpired(Init(chain), asOf);
      assert Init(chain) + [Last(chain)] == chain;
    }
  }

  lemma {:induction false} AllExpired(chain: seq<Row>, asOf: int)
    requires forall k :: 0 <= k < |chain| ==> Expired(chain[k], asOf)
    ensures Unexpired(chain, asOf) == []
  {
    if chain != [] {
      AllExpired(Init(chain), asOf);
      assert Init(chain) + [Last(chain)] == chain;
    }
  }

  lemma {:induction false} UnexpiredAppend(a: seq<Row>, b: seq<Row>, asOf: int)
    ensures Unexpired(a + b, asOf) == Unexpired(a, asOf) + Unexpired(b, asOf)
  {
    if b == [] {
      assert a + b == a;
    } else {
      var last := if Expired(Last(b), asOf) then [] else [Last(b)];
      calc {
        Unexpired(a + b, asOf);
        { assert Init(a + b) == a + Init(b); }
        Unexpired(a + Init(b), asOf) + last;
        { UnexpiredAppend(a, Init(b), asOf); }
        Unexpired(a, asOf) + Unexpired(Init(b), asOf) + last;
        Unexpired(a, asOf) + Unexpired(b, asOf);
      }
    }
  }

  lemma {:induction false} AliveRunStops(trail: seq<Row>, asOf: int)
    ensures var run := AliveRun(trail, asOf);
            && (forall k :: 0 <= k < |run| ==> !Expired(run[k], asOf))
            && (|run| < |trail| ==> Expired(trail[|run|], asOf))
  {
    if trail != [] && !Expired(trail[0], asOf) {
      AliveRunStops(trail[1..], asOf);
    }
  }

  lemma {:induction false} AliveRunIsUnexpired(trail: seq<Row>, asOf: int)
    requires ExpiryFalls(trail)
    ensures Reverse(AliveRun(trail, asOf)) == Unexpired(Reverse(trail), asOf)
  {
    var run, chain := AliveRun(trail, asOf), Reverse(trail);
    AliveRunStops(trail, asOf);
    var cut := |trail| - |run|;
    forall k | 0 <= k < cut ensures Expired(chain[k], asOf) {
      OlderIsExpired(trail, |run|, |trail| - 1 - k, asOf);
    }
    assert chain[cut..] == Reverse(run);
    forall k | cut <= k < |chain| ensures !Expired(chain[k], asOf) {
      assert chain[k] == chain[cut..][k - cut];
    }
    SplitByExpiry(chain, cut, asOf);
  }

  lemma {:induction false} OlderIsExpired(trail: seq<Row>, i: nat, j: nat, asOf: int)
    requires ExpiryFalls(trail) && i <= j < |trail| && Expired(trail[i], asOf)
    ensures Expired(trail[j], asOf)
  {
  }

  lemma {:induction false} SplitByExpiry(chain: seq<Row>, cut: nat, asOf: int)
    requires cut <= |chain|
    requires forall k :: 0 <= k < cut ==> Expired(chain[k], asOf)
    requires forall k :: cut <= k < |chain| ==> !Expired(chain[k], asOf)
    ensures Unexpired(chain, asOf) == chain[cut..]
  {
    NoneExpired(chain[cut..], asOf);
    AllExpired(chain[..cut], asOf);
    UnexpiredAppend(chain[..cut], chain[cut..], asOf);
    assert chain == chain[..cut] + chain[cut..];
  }

  lemma {:induction false} LineageExpiry(env: Env, turns: seq<Turn>, l: seq<Turn>, i: nat, j: nat)
    requires TurnsOk(env, turns) && IsLineage(l) && i <= j < |l|
    requires forall k :: 0 <= k < |l| ==> l[k] in turns
    ensures l[i].row.ttlAt.Some? && l[j].row.ttlAt.Some? && l[j].row.ttlAt.value <= l[i].row.ttlAt.value
    ensures l[i].row.provider == l[j].row.provider && l[i].row.sessionId == l[j].row.sessionId
    decreases j - i
  {
    StoredFits(env, turns, l[i]);
    if i < j {
      StoredFits(env, turns, l[i + 1]);
      assert Descends(l[i + 1].row, l[i + 1 - 1].row);
      LineageExpiry(env, turns, l, i + 1, j);
    }
  }

  lemma {:induction false} LineageMembers(env: Env, turns: seq<Turn>, id: string)
    requires TurnsOk(env, turns) && Find(turns, id).Some?
    ensures forall k :: 0 <= k < |Lineage(turns, Some(id))| ==> Lineage(turns, Some(id))[k] in turns
  {
    var l := Lineage(turns, Some(id));
    LineageFacts(env, turns, id);
    forall k | 0 <= k < |l| ensures l[k] in turns {
      FindIn(turns, l[k].row.id);
    }
  }

  /** In every run and for every time, the walk after a cleanup is the walk before it without its expired rows,
      and that is a contiguous part at its newest end. */
  lemma {:induction false} CleanupNeverLeavesHole(s: Sys, run: seq<Action>, id: string, asOf: int)
    requires Initial(s) && id in Run(s, run).table
    ensures var before := Run(s, run).table;
            && ParentChain(Purge(before, asOf), id) == Unexpired(ParentChain(before, id), asOf)
            && IsSuffix(ParentChain(Purge(before, asOf), id), ParentChain(before, id))
  {
    var e := Run(s, run);
    RunKeeps(s, run);
    var l := ChainIsLineage(EnvOf(e), e.turns, e.table, id);
    var trail := Trail(e.table, Some(id), {});
    LineageTrailExpiry(EnvOf(e), e.turns, l, trail);
    CleanupCutsTrail(e.table, Some(id), {}, asOf);
    AliveRunIsUnexpired(trail, asOf);
    CleanupKeepsSuffix(e.table, id, asOf);
  }

  lemma {:induction false} LineageTrailExpiry(env: Env, turns: seq<Turn>, l: seq<Turn>, trail: seq<Row>)
    requires TurnsOk(env, turns) && IsLineage(l) && trail <= Rows(l)
    requires forall k :: 0 <= k < |l| ==> l[k] in turns
    ensures ExpiryFalls(trail)
  {
    forall i, j | 0 <= i <= j < |trail|
      ensures trail[i].ttlAt.Some? && trail[j].ttlAt.Some? && trail[j].ttlAt.value <= trail[i].ttlAt.value
    {
      assert trail[i] == Rows(l)[i] && trail[j] == Rows(l)[j];
      LineageExpiry(env, turns, l, i, j);
    }
  }

  /** In every run, once an ancestor is gone all older ones are: what is present of a lineage is its newest part. */
  lemma {:induction false} NoHoles(s: Sys, run: seq<Action>, id: string, i: nat, j: nat)
    requires Initial(s) && Find(Run(s, run).turns, id).Some?
    requires i <= j < |Lineage(Run(s, run).turns, Some(id))|
    requires Lineage(Run(s, run).turns, Some(id))[j].row.id in Run(s, run).table
    ensures Lineage(Run(s, run).turns, Some(id))[i].row.id in Run(s, run).table
  {
    var e := Run(s, run);
    RunKeeps(s, run);
    LineageFacts(EnvOf(e), e.turns, id);
    LineageMembers(EnvOf(e), e.turns, id);
    ClosedDownwards(e, Lineage(e.turns, Some(id)), i, j);
  }

  lemma {:induction false} ClosedDownwards(e: Sys, l: seq<Turn>, i: nat, j: nat)
    requires Closed(e.turns, e.table) && IsLineage(l) && i <= j < |l| && l[j].row.id in e.table
    requires forall k :: 0 <= k < |l| ==> l[k] in e.turns
    ensures l[i].row.id in e.table
    decreases j - i
  {
    if i < j {
      assert l[j - 1].row.parent == Some(l[j].row.id);
      ClosedDownwards(e, l, i, j - 1);
    }
  }

  // ---------- The interleaved walk ----------

  lemma {:induction false} PresentIsLongest(l: seq<Turn>, table: Table, n: nat)
    requires n <= |l| && forall k :: 0 <= k < n ==> l[k].row.id in table
    ensures n <= |Present(l, table)|
  {
  }

  /** Whatever other requests insert and cleanups delete between its lookups, a walk that has ended holds a
      contiguous part, at the newest end, of the chain in the table at its request's first transaction; and all of
      that chain, unless a row of it has been deleted meanwhile. */
  lemma {:induction false} InterleavedWalkIsStable(s: Sys, run: seq<Action>, id: string)
    requires Initial(s) && Enabled(Run(s, run), EndWalk(id))
    ensures var e := Run(s, run);
            var p := e.flights[id].phase;
            var atStart := ParentChain(p.start.snapshot, p.parent.id);
            && IsSuffix(Reverse(p.trail), atStart)
            && ((forall r :: r in atStart ==> r.id in e.table) ==> Reverse(p.trail) == atStart)
  {
    var e := Run(s, run);
    RunKeeps(s, run);
    var f := e.flights[id];
    if f.phase.cur.Some? {
      GuardNeverFires(e, f);
    }
    PrefixOk(EnvOf(e), f.phase.start.past, e.turns);
    EndedWalkIsStable(EnvOf(e), e.turns, e.table, f);
  }

  lemma {:induction false} EndedWalkIsStable(env: Env, turns: seq<Turn>, table: Table, f: Flight)
    requires f.phase.Walking? && f.phase.cur == None && WalkOk(turns, table, f) && TurnsOk(env, f.phase.start.past)
    ensures var p := f.phase;
            var atStart := ParentChain(p.start.snapshot, p.parent.id);
            && IsSuffix(Reverse(p.trail), atStart)
            && ((forall r :: r in atStart ==> r.id in table) ==> Reverse(p.trail) == atStart)
  {
    var p := f.phase;
    var l := ChainIsLineage(env, p.start.past, p.start.snapshot, p.parent.id);
    var full := Rows(Present(l, p.start.snapshot));
    forall k | 0 <= k < |p.trail| ensures l[k].row.id in p.start.snapshot {
      assert Rows(l)[k] == p.trail[k];
    }
    PresentIsLongest(l, p.start.snapshot, |p.trail|);
    assert p.trail <= full;
    ReversePrefix(p.trail, full);
    if |p.trail| < |full| {
      assert Reverse(full)[|full| - 1 - |p.trail|] == l[|p.trail|].row;
    }
  }

  /** If no row of that chain was deleted meanwhile, the request is resolved just as if it had been resolved in one
      step at its first transaction, on the table, the cold storage and the clock of that moment: the same request,
      session and parent, or the same failure. */
  lemma {:induction false} InterleavedResolveIsAtomic(s: Sys, run: seq<Action>, id: string)
    requires Initial(s) && Enabled(Run(s, run), EndWalk(id))
    requires var e := Run(s, run);
             var p := e.flights[id].phase;
             forall r :: r in ParentChain(p.start.snapshot, p.parent.id) ==> r.id in e.table
    ensures var e := Run(s, run);
            var f := e.flights[id];
            var after := Step(e, EndWalk(id)).flights[id].phase;
            match Resolve(f.phase.start.snapshot, f.phase.start.cold, f.request, f.provider, f.phase.start.now)
            case Ok(resolved) => after.Calling? && after.resolved == resolved
            case Err(failure) => after == Over(Some(failure))
  {
    var e := Run(s, run);
    RunKeeps(s, run);
    InterleavedWalkIsStable(s, run, id);
    var f := e.flights[id];
    var start := f.phase.start;
    ParentOfWalk(e, id);
    PrefixOk(EnvOf(e), start.past, e.turns);
    TrailReadsAsAtStart(EnvOf(e), f.phase);
    ResolveFromChain(start.snapshot, start.cold, f.request, f.phase.parent, f.provider, start.now, Reverse(f.phase.trail));
  }

  /** The walked rows are rebuilt from today's cold storage as from that of the first transaction. */
  lemma {:induction false} TrailReadsAsAtStart(env: Env, p: Phase)
    requires p.Walking? && TurnsOk(env, p.start.past) && Find(p.start.past, p.parent.id).Some?
    requires KeptAll(p.start.past, p.start.cold) && p.trail <= Rows(Lineage(p.start.past, Some(p.parent.id)))
    ensures Reconstruct(Reverse(p.trail), p.start.cold) == Reconstruct(Reverse(p.trail), env.cold)
  {
    var l := Lineage(p.start.past, Some(p.parent.id));
    TrailIsConversation(env, p.start.past, p.parent.id, p.trail);
    LineageMembers(env, p.start.past, p.parent.id);
    assert p.trail == Rows(l[..|p.trail|]);
    ReverseRows(l[..|p.trail|]);
    ReconstructIsConversation(Reverse(l[..|p.trail|]), p.start.cold);
  }

  lemma {:induction false} ParentOfWalk(e: Sys, id: string)
    requires Inv(e) && id in e.flights && e.flights[id].phase.Walking?
    ensures var f := e.flights[id];
            var parent := f.phase.parent;
            && WalkOk(e.turns, e.table, f)
            && parent.id != "" && Get(f.request, PREV) == Str(parent.id)
            && CheckParent(f.phase.start.snapshot, Str(parent.id), f.provider, f.phase.start.now) == Ok(parent)
  {
    var f := e.flights[id];
    assert FlightOk(EnvOf(e), e.turns, e.table, id, f);
    FindExtends(EnvOf(e), f.phase.start.past, e.turns, f.phase.parent.id);
    FindIn(e.turns, f.phase.parent.id);
    IdsNonEmpty(EnvOf(e), e.turns, Find(e.turns, f.phase.parent.id).value);
  }

  lemma {:induction false} ResolveFromChain(table: Table, cold: Option<ColdMap>, request: Fields, parent: Row,
                                            provider: string, now: int, chain: seq<Row>)
    requires Get(request, PREV) == Str(parent.id) && parent.id != ""
    requires CheckParent(table, Str(parent.id), provider, now) == Ok(parent) && ParentChain(table, parent.id) == chain
    ensures Resolve(table, cold, request, provider, now) ==
            match Reconstruct(chain, cold)
            case Err(e) => Err(e)
            case Ok(history) => Ok(Resolved(Expand(request, history), Some(parent.sessionId), Some(parent.id)))
  {
  }

  // ---------- What a request in flight asks for ----------

  predicate SameAsked(a: Flight, b: Flight) {
    a.request == b.request && a.provider == b.provider && a.model == b.model && a.store == b.store
  }

  /** The flights are the same, and ask for the same. */
  predicate AskedKept(s: Sys, s': Sys) {
    s'.flights.Keys == s.flights.Keys && forall id :: id in s.flights ==> SameAsked(s.flights[id], s'.flights[id])
  }

  lemma {:induction false} FetchingKeepsAsked(s: Sys, x: string)
    requires x in s.flights
    ensures AskedKept(s, FetchParentStep(s, x))
  {
    var phase := FetchParentStep(s, x).flights[x].phase;
    assert FetchParentStep(s, x).flights == s.flights[x := s.flights[x].(phase := phase)];
  }

  lemma {:induction false} WalkingKeepsAsked(s: Sys, x: string)
    requires x in s.flights && s.flights[x].phase.Walking?
    ensures More(s.flights[x].phase) ==> AskedKept(s, LookupStep(s, x))
  {
  }

  lemma {:induction false} EndingKeepsAsked(s: Sys, x: string)
    requires x in s.flights && s.flights[x].phase.Walking?
    ensures AskedKept(s, EndWalkStep(s, x))
  {
  }

  lemma {:induction false} RespondingKeepsAsked(s: Sys, x: string, response: Fields, session: string)
    requires x in s.flights && s.flights[x].phase.Calling?
    ensures AskedKept(s, RespondStep(s, x, response, session))
  {
  }

  lemma {:induction false} InsertingKeepsAsked(s: Sys, x: string)
    requires x in s.flights && s.flights[x].phase.Inserting?
    ensures AskedKept(s, InsertStep(s, x))
  {
  }

  /** The step begins this very request, or leaves what it asks for as it was. */
  lemma {:induction false} StepKeepsAsked(s: Sys, a: Action, id: string)
    requires id in Step(s, a).flights
    ensures var f := Step(s, a).flights[id];
            || a == Begin(id, f.request, f.provider, f.model, f.store)
            || (id in s.flights && SameAsked(s.flights[id], f))
  {
    if Enabled(s, a) {
      match a
      case FetchParent(x) => FetchingKeepsAsked(s, x);
      case Lookup(x) => WalkingKeepsAsked(s, x);
      case EndWalk(x) => EndingKeepsAsked(s, x);
      case Respond(x, response, session) => RespondingKeepsAsked(s, x, response, session);
      case Insert(x) => InsertingKeepsAsked(s, x);
      case _ =>
    }
  }

  /** In every run, a request in flight asks for what its client asked when it began: the same body, provider and model,
      and the same wish to be stored or not. */
  lemma {:induction false} FlightsAskWhatTheyBeganWith(s: Sys, run: seq<Action>, id: string)
    requires Initial(s) && id in Run(s, run).flights
    ensures var f := Run(s, run).flights[id];
            Begin(id, f.request, f.provider, f.model, f.store) in run
  {
    var rest, a := Init(run), Last(run);
    StepKeepsAsked(Run(s, rest), a, id);
    assert run == rest + [a];
    if id in Run(s, rest).flights {
      FlightsAskWhatTheyBeganWith(s, rest, id);
    }
  }

  // ---------- Turns that are not to be stored ----------

  /** In every run, the id of a request with storing switched off is never found. */
  lemma {:induction false} UnstoredIsNeverFound(s: Sys, run: seq<Action>, id: string, provider: string, now: int)
    requires Initial(s) && id in Run(s, run).flights && !Run(s, run).flights[id].store
    ensures CheckParent(Run(s, run).table, Str(id), provider, now) == Err(NotFound)
  {
    RunKeeps(s, run);
    FindIn(Run(s, run).turns, id);
  }

  // ---------- Requests that failed ----------

  /** Given up for good, with nothing stored. */
  predicate Lost(s: Sys, id: string) {
    id in s.flights && s.flights[id].phase.Over? && Find(s.turns, id) == None
  }

  lemma {:induction false} FailedIsLost(s: Sys, id: string)
    requires Inv(s) && Enabled(s, Fail(id))
    ensures Lost(Step(s, Fail(id)), id)
  {
    assert FlightOk(EnvOf(s), s.turns, s.table, id, s.flights[id]);
  }

  lemma {:induction false} InsertLeavesOthers(s: Sys, x: string, id: string)
    requires x in s.flights && s.flights[x].phase.Inserting? && s.flights[x].phase.row.id == x && x != id && Lost(s, id)
    ensures Lost(InsertStep(s, x), id)
  {
    var t := Turn(s.flights[x].phase.row, s.flights[x].request, s.flights[x].phase.response);
    assert Init(s.turns + [t]) == s.turns;
  }

  lemma {:induction false} LostStays(s: Sys, a: Action, id: string)
    requires Inv(s) && Lost(s, id)
    ensures Lost(Step(s, a), id)
  {
    if Enabled(s, a) && a.Insert? {
      assert FlightOk(EnvOf(s), s.turns, s.table, a.id, s.flights[a.id]);
      InsertLeavesOthers(s, a.id, id);
    } else {
      TurnsOnlyGrowByInsert(s, a);
      OverStays(s, a, id);
    }
  }

  lemma {:induction false} TurnsOnlyGrowByInsert(s: Sys, a: Action)
    requires !Enabled(s, a) || !a.Insert?
    ensures Step(s, a).turns == s.turns
  {
    if !a.Cleanup? {
      OnlyInsertAndCleanupTouchTable(s, a);
    }
  }

  lemma {:induction false} OverStays(s: Sys, a: Action, id: string)
    requires id in s.flights && s.flights[id].phase.Over? && !(Enabled(s, a) && a.Insert?)
    ensures id in Step(s, a).flights && Step(s, a).flights[id].phase.Over?
  {
    if Enabled(s, a) {
      match a
      case FetchParent(x) => assert x != id && FetchParentStep(s, x).flights[id] == s.flights[id];
      case Lookup(x) => assert x != id && LookupStep(s, x).flights[id] == s.flights[id];
      case EndWalk(x) => assert x != id && EndWalkStep(s, x).flights[id] == s.flights[id];
      case Respond(x, response, session) => assert x != id && RespondStep(s, x, response, session).flights[id] == s.flights[id];
      case _ =>
    }
  }

  /** In every run, a request that fails before its turn is inserted leaves no row, then or ever after. */
  lemma {:induction false} FailedIsNeverStored(s: Sys, before: seq<Action>, after: seq<Action>, id: string)
    requires Initial(s) && Enabled(Run(s, before), Fail(id))
    ensures Lost(Run(s, before + [Fail(id)] + after), id) && id !in Run(s, before + [Fail(id)] + after).table
  {
    var run := before + [Fail(id)] + after;
    if after == [] {
      assert run == before + [Fail(id)] && Init(run) == before;
      RunKeeps(s, before);
      FailedIsLost(Run(s, before), id);
    } else {
      assert Init(run) == before + [Fail(id)] + Init(after) && Last(run) == Last(after);
      FailedIsNeverStored(s, before, Init(after), id);
      RunKeeps(s, Init(run));
      LostStays(Run(s, Init(run)), Last(run), id);
    }
    RunKeeps(s, run);
  }

  // ---------- Sessions ----------

  /** The turn at the root of a stored turn's lineage. */
  function Root(turns: seq<Turn>, id: string): Option<Turn> {
    var l := Lineage(turns, Some(id));
    if l == [] then None else Some(Last(l))
  }

  lemma {:induction false} RootSession(env: Env, turns: seq<Turn>, id: string)
    requires TurnsOk(env, turns) && Find(turns, id).Some?
    ensures var t, root := Find(turns, id).value, Root(turns, id);
            && root.Some? && root.value.row.sessionId == t.row.sessionId && root.value.row.provider == t.row.provider
            && t.row.sessionId in env.drawn && env.drawn[t.row.sessionId] == root.value.row.id
            && Find(turns, root.value.row.id) == root
  {
    var l := Lineage(turns, Some(id));
    LineageFacts(env, turns, id);
    LineageMembers(env, turns, id);
    LineageExpiry(env, turns, l, 0, |l| - 1);
    StoredFits(env, turns, Last(l));
  }

  /** In every run, two stored turns have the same session id exactly when they descend from the same root turn,
      deleted since or not. */
  lemma {:induction false} SessionsAreTrees(s: Sys, run: seq<Action>, a: string, b: string)
    requires Initial(s) && Find(Run(s, run).turns, a).Some? && Find(Run(s, run).turns, b).Some?
    ensures var turns := Run(s, run).turns;
            Find(turns, a).value.row.sessionId == Find(turns, b).value.row.sessionId <==> Root(turns, a) == Root(turns, b)
  {
    RunKeeps(s, run);
    RootSession(EnvOf(Run(s, run)), Run(s, run).turns, a);
    RootSession(EnvOf(Run(s, run)), Run(s, run).turns, b);
  }

  /** In every run, all rows a walk returns share the requested row's provider and session. */
  lemma {:induction false} ChainsShareProviderAndSession(s: Sys, run: seq<Action>, id: string, r: Row)
    requires Initial(s) && id in Run(s, run).table && r in ParentChain(Run(s, run).table, id)
    ensures r.provider == Run(s, run).table[id].provider && r.sessionId == Run(s, run).table[id].sessionId
  {
    var e := Run(s, run);
    RunKeeps(s, run);
    var chain, trail := ParentChain(e.table, id), Trail(e.table, Some(id), {});
    var k :| 0 <= k < |chain| && chain[k] == r;
    assert r == trail[|trail| - 1 - k];
    TrailRowShares(EnvOf(e), e.turns, e.table, id, |trail| - 1 - k);
  }

  lemma {:induction false} TrailRowShares(env: Env, turns: seq<Turn>, table: Table, id: string, j: nat)
    requires TurnsOk(env, turns) && TableOk(turns, table) && id in table && j < |Trail(table, Some(id), {})|
    ensures var r := Trail(table, Some(id), {})[j];
            r.provider == table[id].provider && r.sessionId == table[id].sessionId
  {
    var l := ChainIsLineage(env, turns, table, id);
    LineageExpiry(env, turns, l, 0, j);
  }

  // ---------- Offloading ----------

  /** In every run, crashes and failed puts included, each row in the table keeps exactly its turn's request and
      response: both inline and no key, or neither inline and a key under which both are found. */
  lemma {:induction false} NoDanglingOffload(s: Sys, run: seq<Action>, id: string)
    requires Initial(s) && id in Run(s, run).table
    ensures var e := Run(s, run);
            exists t :: t in e.turns && t.row == e.table[id] && Kept(t.row, t.request, t.response, ColdOf(e))
  {
    var e := Run(s, run);
    RunKeeps(s, run);
    FindIn(e.turns, id);
    StoredFits(EnvOf(e), e.turns, Find(e.turns, id).value);
  }
}
