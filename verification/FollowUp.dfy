/** One stored turn and its follow-up, run through the protocol: what the model is told after offloading. */
module FollowUp {
  import opened JsonValues
  import opened Store
  import opened Resolver
  import opened Recorder
  import opened Protocol
  import opened Invariants
  import opened Lineages
  import opened Conversations

  // ---------- The recorder is three steps of the protocol ----------

  /** The protocol's answer, its save and its insert leave table and cold storage as the recorder's one call does. */
  lemma {:induction false} RecordIsThreeSteps(s: Sys, id: string, response: Fields, session: string, key: Option<string>)
    requires id in s.flights && s.flights[id].phase.Calling? && s.flights[id].store
    requires session != "" && session !in s.drawn
    requires key.Some? ==> s.coldOn && key.value != "" && key.value !in s.cold
    ensures var f, own := s.flights[id], response["id" := Str(id)];
            var save := if key.Some? then ColdPut(id, key.value) else KeepInline(id);
            var e := Step(Step(Step(s, Respond(id, response, session)), save), Insert(id));
            && e.table == TableAfter(s.table, InlineRow(id, f.request, own, f.provider, f.model, f.phase.resolved.sessionId,
                                                        f.phase.resolved.parentId, session, s.clock, s.ttl), key)
            && ColdOf(e) == ColdAfter(ColdOf(s), ColdPayload(f.request, own), key.Some?, key)
  {
    var s1 := Step(s, Respond(id, response, session));
    var row, own := s1.flights[id].phase.row, response["id" := Str(id)];
    SavesAs(s1, id, row, own, key);
  }

  lemma {:induction false} SavesAs(s: Sys, id: string, row: Row, own: Fields, key: Option<string>)
    requires id in s.flights && s.flights[id].phase == Saving(row, own) && row.id == id
    requires key.Some? ==> s.coldOn && key.value != "" && key.value !in s.cold
    ensures var e := Step(Step(s, if key.Some? then ColdPut(id, key.value) else KeepInline(id)), Insert(id));
            && e.table == TableAfter(s.table, row, key)
            && ColdOf(e) == ColdAfter(ColdOf(s), ColdPayload(s.flights[id].request, own), key.Some?, key)
  {
    var saved := if key.Some? then Offloaded(row, key.value) else row;
    var s1 := Step(s, if key.Some? then ColdPut(id, key.value) else KeepInline(id));
    assert s1.flights[id].phase == Inserting(saved, own) && s1.table == s.table;
    InsertsAs(s1, id, saved, own);
  }

  lemma {:induction false} InsertsAs(s: Sys, id: string, row: Row, own: Fields)
    requires id in s.flights && s.flights[id].phase == Inserting(row, own)
    ensures var e := Step(s, Insert(id));
            e.table == (if id in s.table then s.table else s.table[id := row]) && ColdOf(e) == ColdOf(s)
  {
  }

  // ---------- A turn and its follow-up ----------

  /** A request without a pointer, answered and stored as `save` says: `KeepInline(id)` or `ColdPut(id, key)`. */
  function Storing(id: string, request: Fields, provider: string, model: Json, response: Fields, session: string, save: Action)
    : seq<Action>
  {
    [Begin(id, request, provider, model, true), FetchParent(id), Respond(id, response, session), save, Insert(id)]
  }

  /** A follow-up, up to its call of the model. */
  function Following(next: string, follow: Fields, provider: string, model: Json): seq<Action> {
    [Begin(next, follow, provider, model, true), FetchParent(next), Lookup(next), EndWalk(next)]
  }

  lemma {:induction false} RunFour(s: Sys, a: Action, b: Action, c: Action, d: Action)
    ensures Run(s, [a, b, c, d]) == Step(Step(Step(Step(s, a), b), c), d)
  {
    assert Init([a, b, c, d]) == [a, b, c] && Init([a, b, c]) == [a, b] && Init([a, b]) == [a] && Init([a]) == [];
    assert Run(s, [a]) == Step(s, a);
    assert Run(s, [a, b]) == Step(Step(s, a), b);
    assert Run(s, [a, b, c]) == Step(Step(Step(s, a), b), c);
  }

  lemma {:induction false} RunAppend(s: Sys, first: seq<Action>, second: seq<Action>)
    ensures Run(s, first + second) == Run(Run(s, first), second)
  {
    if second == [] {
      assert first + second == first;
    } else {
      var most, last := Init(second), Last(second);
      RunAppend(s, first, most);
      RunLast(s, first + most, last);
      assert first + second == first + most + [last];
    }
  }

  /** What storing a turn leaves, in the table and in cold storage. */
  predicate Stored(s: Sys, e: Sys, id: string, request: Fields, provider: string, response: Fields, offload: bool) {
    && id in e.table && e.flights.Keys == s.flights.Keys + {id} && e.clock == s.clock
    && var row := e.table[id];
    && row.id == id && row.parent == None && row.provider == provider && row.ttlAt == Some(s.clock + s.ttl)
    && (row.coldKey != None <==> offload)
    && Kept(row, request, response["id" := Str(id)], ColdOf(e))
  }

  /** The first three steps: the answered turn's row is ready to be saved. */
  lemma {:induction false} StoringAnswers(s: Sys, id: string, request: Fields, provider: string, model: Json, response: Fields,
                                          session: string)
    requires Initial(s) && id != "" && session != "" && !Truthy(Get(request, PREV))
    ensures var own := response["id" := Str(id)];
            var row := InlineRow(id, request, own, provider, model, None, None, session, s.clock, s.ttl);
            var e := Step(Step(Step(s, Begin(id, request, provider, model, true)), FetchParent(id)), Respond(id, response, session));
            && e.flights == map[id := Flight(request, provider, model, true, Saving(row, own))]
            && e.table == map[] && e.cold == map[] && e.clock == s.clock && e.coldOn == s.coldOn
  {
    var s1 := Step(s, Begin(id, request, provider, model, true));
    assert s1.flights[id] == Flight(request, provider, model, true, Starting);
    var s2 := Step(s1, FetchParent(id));
    assert s2 == Move(s1, id, Calling(Resolved(request, None, None), 0, s1.turns));
    var s3 := Step(s2, Respond(id, response, session));
  }

  lemma {:induction false} StoringStores(s: Sys, id: string, request: Fields, provider: string, model: Json, response: Fields,
                                         session: string, save: Action)
    requires Initial(s) && id != "" && session != "" && !Truthy(Get(request, PREV))
    requires save == KeepInline(id) || (s.coldOn && save.ColdPut? && save.id == id && save.key != "")
    ensures Stored(s, Run(s, Storing(id, request, provider, model, response, session, save)), id, request, provider,
                   response, save.ColdPut?)
  {
    var begin, fetch, respond := Begin(id, request, provider, model, true), FetchParent(id), Respond(id, response, session);
    StoringAnswers(s, id, request, provider, model, response, session);
    AnsweredIsStored(s, Step(Step(Step(s, begin), fetch), respond), id, request, provider, model, response, session, save);
    RunFour(s, begin, fetch, respond, save);
    RunLast(s, [begin, fetch, respond, save], Insert(id));
    assert Storing(id, request, provider, model, response, session, save) == [begin, fetch, respond, save] + [Insert(id)];
  }

  lemma {:induction false} AnsweredIsStored(s: Sys, answered: Sys, id: string, request: Fields, provider: string, model: Json,
                                            response: Fields, session: string, save: Action)
    requires Initial(s)
    requires var own := response["id" := Str(id)];
             var row := InlineRow(id, request, own, provider, model, None, None, session, s.clock, s.ttl);
             && answered.flights == map[id := Flight(request, provider, model, true, Saving(row, own))]
             && answered.table == map[] && answered.cold == map[] && answered.clock == s.clock && answered.coldOn == s.coldOn
    requires save == KeepInline(id) || (s.coldOn && save.ColdPut? && save.id == id && save.key != "")
    ensures Stored(s, Step(Step(answered, save), Insert(id)), id, request, provider, response, save.ColdPut?)
  {
    SaveKeeps(answered, id, save, answered.flights[id].phase.row, response["id" := Str(id)]);
    InsertStores(Step(answered, save), id);
  }

  lemma {:induction false} InsertStores(s: Sys, id: string)
    requires id in s.flights && s.flights[id].phase.Inserting? && id !in s.table
    ensures var e := Step(s, Insert(id));
            && e.table == s.table[id := s.flights[id].phase.row] && e.flights.Keys == s.flights.Keys
            && e.clock == s.clock && ColdOf(e) == ColdOf(s)
  {
  }

  lemma {:induction false} RunLast(s: Sys, run: seq<Action>, a: Action)
    ensures Run(s, run + [a]) == Step(Run(s, run), a)
  {
    assert Init(run + [a]) == run;
  }

  lemma {:induction false} SaveKeeps(s: Sys, id: string, save: Action, row: Row, own: Fields)
    requires id in s.flights && s.flights[id].phase == Saving(row, own) && s.cold == map[]
    requires row.coldKey == None && row.input == Some(s.flights[id].request) && row.output == Some(own)
    requires save == KeepInline(id) || (s.coldOn && save.ColdPut? && save.id == id && save.key != "")
    ensures var e := Step(s, save);
            && e.table == s.table && e.clock == s.clock && e.turns == s.turns && e.flights.Keys == s.flights.Keys
            && e.flights[id].request == s.flights[id].request && e.flights[id].phase.Inserting?
            && var kept := e.flights[id].phase.row;
            && kept == row.(input := kept.input, output := kept.output, coldKey := kept.coldKey)
            && (kept.coldKey != None <==> save.ColdPut?)
            && Kept(kept, s.flights[id].request, own, ColdOf(e))
  {
  }

  /** The first three steps of a follow-up on a live stored root: its walk has found the root, and nothing above. */
  lemma {:induction false} FollowingWalks(s: Sys, id: string, next: string, follow: Fields, model: Json)
    requires id in s.table && id != "" && next != "" && next !in s.flights && Get(follow, PREV) == Str(id)
    requires s.table[id].id == id && s.table[id].parent == None && !Expired(s.table[id], s.clock)
    ensures var row := s.table[id];
            var start := Start(s.table, ColdOf(s), s.clock, s.turns);
            var e := Step(Step(Step(s, Begin(next, follow, row.provider, model, true)), FetchParent(next)), Lookup(next));
            && next in e.flights && e.cold == s.cold && e.coldOn == s.coldOn
            && e.flights[next] == Flight(follow, row.provider, model, true, Walking(row, [row], {id}, None, start))
  {
    var row := s.table[id];
    var s2 := Step(Step(s, Begin(next, follow, row.provider, model, true)), FetchParent(next));
    var start := Start(s.table, ColdOf(s), s.clock, s.turns);
    ParentPasses(s, id, next, follow, model);
    var s3 := Step(s2, Lookup(next));
    assert s3.flights[next].phase == Walking(row, [] + [row], {} + {id}, None, start);
  }

  /** From any state with a live stored root, a follow-up is handed what is rebuilt of the root's row, or fails with
      the row's failure. */
  lemma {:induction false} FollowingResolves(s: Sys, id: string, next: string, follow: Fields, model: Json)
    requires id in s.table && id != "" && next != "" && next !in s.flights && Get(follow, PREV) == Str(id)
    requires s.table[id].id == id && s.table[id].parent == None && !Expired(s.table[id], s.clock)
    ensures var e := Run(s, Following(next, follow, s.table[id].provider, model));
            next in e.flights &&
            e.flights[next].phase == match RowMessages(s.table[id], ColdOf(s))
                                     case Ok(history) =>
                                       Calling(Resolved(Expand(follow, history), Some(s.table[id].sessionId), Some(id)), 1, s.turns)
                                     case Err(failure) => Over(Some(failure))
  {
    var row := s.table[id];
    var begin := Begin(next, follow, row.provider, model, true);
    FollowingWalks(s, id, next, follow, model);
    EndOfOneRowWalk(Step(Step(Step(s, begin), FetchParent(next)), Lookup(next)), next, row);
    RunFour(s, begin, FetchParent(next), Lookup(next), EndWalk(next));
  }

  lemma {:induction false} EndOfOneRowWalk(s: Sys, next: string, row: Row)
    requires next in s.flights && s.flights[next].phase.Walking? && !More(s.flights[next].phase)
    requires s.flights[next].phase.trail == [row] && s.flights[next].phase.parent == row
    ensures var f, e := s.flights[next], Step(s, EndWalk(next));
            next in e.flights &&
            e.flights[next].phase == match RowMessages(row, ColdOf(s))
                                     case Ok(history) =>
                                       Calling(Resolved(Expand(f.request, history), Some(row.sessionId), Some(row.id)), 1, f.phase.start.past)
                                     case Err(failure) => Over(Some(failure))
  {
    assert Reverse([row]) == [row];
    OneRowHistory(row, ColdOf(s));
  }

  lemma {:induction false} OneRowHistory(row: Row, cold: Option<ColdMap>)
    ensures Reconstruct([row], cold) == RowMessages(row, cold)
  {
    assert [row][..1] == [row] && [row][..0] == [];
    ReconstructStep([row], 0, cold);
    assert RowMessages(row, cold).Ok? ==> [] + RowMessages(row, cold).value == RowMessages(row, cold).value;
  }

  /** In the run that stores a turn and follows up on it, the model is told the turn's own contribution when it was
      kept inline, and the whole body of its request, as one message and with no output, when it was offloaded. */
  lemma {:induction false} OffloadingReachesTheModel(s: Sys, id: string, request: Fields, provider: string, model: Json,
                                                     response: Fields, session: string, save: Action,
                                                     next: string, follow: Fields)
    requires Initial(s) && s.ttl >= 0 && id != "" && session != "" && next != "" && next != id
    requires !Truthy(Get(request, PREV)) && RequestShaped(request) && Get(follow, PREV) == Str(id)
    requires save == KeepInline(id) || (s.coldOn && save.ColdPut? && save.id == id && save.key != "")
    ensures var run := Storing(id, request, provider, model, response, session, save) + Following(next, follow, provider, model);
            next in Run(s, run).flights &&
            var phase := Run(s, run).flights[next].phase;
            if save.ColdPut? then phase.Calling? && phase.resolved.request == Expand(follow, [Obj(request)])
            else match Own(request, response)
                 case Ok(own) => phase.Calling? && phase.resolved.request == Expand(follow, own)
                 case Err(failure) => phase == Over(Some(failure))
  {
    var storing := Storing(id, request, provider, model, response, session, save);
    StoringStores(s, id, request, provider, model, response, session, save);
    RunAppend(s, storing, Following(next, follow, provider, model));
    var e := Run(s, storing);
    FollowingResolves(e, id, next, follow, model);
    var t := Turn(e.table[id], request, response["id" := Str(id)]);
    RowMessagesAreContribution(t, ColdOf(e));
    OldRequestLeaksIff(t, ColdOf(e));
  }

  // ---------- The first transaction ----------

  /** A request's first transaction: without a pointer it goes straight to the model, unchanged; a row that is missing,
      expired by now or another provider's ends it with that failure; otherwise its walk starts. */
  lemma {:induction false} FirstTransaction(s: Sys, id: string)
    requires id in s.flights && s.flights[id].phase.Starting?
    ensures var f, e := s.flights[id], Step(s, FetchParent(id));
            && id in e.flights && e.table == s.table
            && var phase := e.flights[id].phase;
            if NoPointer(f.request) then phase.Calling? && phase.resolved == Resolved(f.request, None, None)
            else
              var pointer := f.request["previous_response_id"];
              if !pointer.Str? || pointer.s !in s.table then phase == Over(Some(NotFound))
              else
                var row := s.table[pointer.s];
                if row.ttlAt.Some? && row.ttlAt.value < s.clock then phase == Over(Some(PreviousExpired))
                else if row.provider != f.provider then phase == Over(Some(ProviderMismatch))
                else phase.Walking? && phase.parent == row && phase.trail == [] && phase.cur == Some(pointer.s)
  {
    assert Truthy(Get(s.flights[id].request, PREV)) <==> !NoPointer(s.flights[id].request);
  }

  /** Time that passes before it counts. */
  lemma {:induction false} ExpiredMeanwhile(s: Sys, id: string, elapsed: nat)
    requires id in s.flights && s.flights[id].phase.Starting? && !NoPointer(s.flights[id].request)
    requires var pointer := s.flights[id].request["previous_response_id"];
             pointer.Str? && pointer.s in s.table && s.table[pointer.s].ttlAt.Some?
             && s.table[pointer.s].ttlAt.value < s.clock + elapsed
    ensures var e := Step(Step(s, Tick(elapsed)), FetchParent(id));
            id in e.flights && e.flights[id].phase == Over(Some(PreviousExpired))
  {
    FirstTransaction(Step(s, Tick(elapsed)), id);
  }

  // ---------- A cleanup between the parent check and the walk ----------

  /** A follow-up's first transaction, in which the parent passes its checks. */
  function Checking(next: string, follow: Fields, provider: string, model: Json): seq<Action> {
    [Begin(next, follow, provider, model, true), FetchParent(next)]
  }

  /** Time passes, a cleanup runs, and only then the walk looks for the parent. */
  function LateWalk(next: string, elapsed: nat, asOf: int): seq<Action> {
    [Tick(elapsed), Cleanup(asOf), Lookup(next), EndWalk(next)]
  }

  /** A parent that expires between its checks and the walk, and is cleaned up: the follow-up goes to the model with
      session and parent and no history at all. */
  lemma {:induction false} CleanupOvertakesWalk(s: Sys, id: string, next: string, follow: Fields, model: Json, elapsed: nat)
    requires id in s.table && id != "" && next != "" && next !in s.flights && Get(follow, PREV) == Str(id)
    requires s.table[id].id == id && !Expired(s.table[id], s.clock) && Expired(s.table[id], s.clock + elapsed)
    ensures var row := s.table[id];
            var e := Run(s, Checking(next, follow, row.provider, model) + LateWalk(next, elapsed, s.clock + elapsed));
            next in e.flights &&
            e.flights[next].phase == Calling(Resolved(Expand(follow, []), Some(row.sessionId), Some(id)), 0, s.turns)
  {
    var provider := s.table[id].provider;
    RunAppend(s, Checking(next, follow, provider, model), LateWalk(next, elapsed, s.clock + elapsed));
    CheckingPasses(s, id, next, follow, model);
    WalkOvertaken(Run(s, Checking(next, follow, provider, model)), id, next, elapsed, s.clock + elapsed);
  }

  lemma {:induction false} CheckingPasses(s: Sys, id: string, next: string, follow: Fields, model: Json)
    requires id in s.table && id != "" && next != "" && next !in s.flights && Get(follow, PREV) == Str(id)
    requires s.table[id].id == id && !Expired(s.table[id], s.clock)
    ensures var row := s.table[id];
            var start := Start(s.table, ColdOf(s), s.clock, s.turns);
            var e := Run(s, Checking(next, follow, row.provider, model));
            && next in e.flights && e.table == s.table
            && e.flights[next] == Flight(follow, row.provider, model, true, Walking(row, [], {}, Some(id), start))
  {
    var begin := Begin(next, follow, s.table[id].provider, model, true);
    ParentPasses(s, id, next, follow, model);
    RunLast(s, [], begin);
    RunLast(s, [begin], FetchParent(next));
    assert [] + [begin] == [begin] && [begin] + [FetchParent(next)] == Checking(next, follow, s.table[id].provider, model);
  }

  lemma {:induction false} WalkOvertaken(s: Sys, id: string, next: string, elapsed: nat, asOf: int)
    requires next in s.flights && s.flights[next].phase.Walking? && More(s.flights[next].phase)
    requires s.flights[next].phase.trail == [] && s.flights[next].phase.cur == Some(id)
    requires id in s.table && Expired(s.table[id], asOf)
    ensures var f, e := s.flights[next], Run(s, LateWalk(next, elapsed, asOf));
            next in e.flights &&
            e.flights[next].phase == Calling(Resolved(Expand(f.request, []), Some(f.phase.parent.sessionId), Some(f.phase.parent.id)),
                                             0, f.phase.start.past)
  {
    RunFour(s, Tick(elapsed), Cleanup(asOf), Lookup(next), EndWalk(next));
    CleansUp(s, elapsed, asOf);
    LostWalk(Step(Step(s, Tick(elapsed)), Cleanup(asOf)), next);
  }

  lemma {:induction false} CleansUp(s: Sys, elapsed: nat, asOf: int)
    ensures var e := Step(Step(s, Tick(elapsed)), Cleanup(asOf));
            e.flights == s.flights && e.table == Purge(s.table, asOf)
  {
  }

  lemma {:induction false} ParentPasses(s: Sys, id: string, next: string, follow: Fields, model: Json)
    requires id in s.table && id != "" && next != "" && next !in s.flights && Get(follow, PREV) == Str(id)
    requires s.table[id].id == id && !Expired(s.table[id], s.clock)
    ensures var row := s.table[id];
            var start := Start(s.table, ColdOf(s), s.clock, s.turns);
            var e := Step(Step(s, Begin(next, follow, row.provider, model, true)), FetchParent(next));
            && next in e.flights && e.table == s.table
            && e.flights[next] == Flight(follow, row.provider, model, true, Walking(row, [], {}, Some(id), start))
  {
    var row := s.table[id];
    var s1 := Step(s, Begin(next, follow, row.provider, model, true));
    assert s1.flights[next] == Flight(follow, row.provider, model, true, Starting);
  }

  lemma {:induction false} LostWalk(s: Sys, next: string)
    requires next in s.flights && s.flights[next].phase.Walking? && More(s.flights[next].phase)
    requires s.flights[next].phase.trail == [] && s.flights[next].phase.cur.value !in s.table
    ensures var f, e := s.flights[next], Step(Step(s, Lookup(next)), EndWalk(next));
            next in e.flights &&
            e.flights[next].phase == Calling(Resolved(Expand(f.request, []), Some(f.phase.parent.sessionId), Some(f.phase.parent.id)),
                                             0, f.phase.start.past)
  {
    var s1 := Step(s, Lookup(next));
    assert s1.flights[next].phase.cur == None && s1.flights[next].phase.trail == [];
    var none: seq<Row> := [];
    assert Reverse(none) == [];
  }
}
