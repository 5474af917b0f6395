/** What the model is told: the conversation rebuilt from stored turns, and where offloading breaks it. */
module Conversations {
  import opened JsonValues
  import opened Store
  import opened Resolver
  import opened Recorder
  import opened Protocol
  import opened Invariants
  import opened Lineages
  import opened Preservation

  // ---------- The conversation equation ----------

  /** In every run, the input of a request handed to the model is the contributions of a contiguous newest part of
      the turn its pointer names and that turn's ancestors, oldest first and each once, then its own input;
      and of all of them unless the next older one has been deleted.  Only a request without a pointer is handed over
      as it came. */
  lemma {:induction false} ConversationEquation(s: Sys, run: seq<Action>, id: string)
    requires Initial(s) && id in Run(s, run).flights && Run(s, run).flights[id].phase.Calling?
    ensures var e := Run(s, run);
            var f, p := e.flights[id], e.flights[id].phase;
            match p.resolved.parentId
            case None => NoPointer(f.request) && p.resolved.request == f.request
            case Some(parent) =>
              var l := Lineage(e.turns, Some(parent));
              && Get(f.request, "previous_response_id") == Str(parent)
              && p.used <= |l| && l != [] && IsLineage(l) && l[0].row.id == parent
              && p.resolved.sessionId == Some(l[0].row.sessionId) && l[0].row.provider == f.provider
              && Conversation(Reverse(l[..p.used])).Ok?
              && Continues(f.request, Conversation(Reverse(l[..p.used])).value, p.resolved.request)
              && (p.used < |l| ==> l[p.used].row.id !in e.table)
  {
    var e := Run(s, run);
    RunKeeps(s, run);
    var p := e.flights[id].phase;
    assert FlightOk(EnvOf(e), e.turns, e.table, id, e.flights[id]);
    if p.resolved.parentId.Some? {
      LineageExtends(EnvOf(e), p.past, e.turns, p.resolved.parentId.value);
      FindExtends(EnvOf(e), p.past, e.turns, p.resolved.parentId.value);
      LineageFacts(EnvOf(e), e.turns, p.resolved.parentId.value);
      ExpandContinues(e.flights[id].request, Conversation(Used(p.past, p.resolved.parentId, p.used)).value);
    }
  }

  /** A follow-up sees what its parent's request saw, then exactly its parent's own contribution. */
  lemma {:induction false} ConversationGrowsByOneTurn(env: Env, turns: seq<Turn>, t: Turn)
    requires TurnsOk(env, turns) && t in turns
    ensures Conversation(Reverse(Lineage(turns, Some(t.row.id)))) ==
            Join(Conversation(Reverse(Lineage(turns, t.row.parent))), Contribution(t))
  {
    StoredIsFound(env, turns, t);
    LineageStep(env, turns, t);
    var above := Lineage(turns, t.row.parent);
    assert Init(Reverse([t] + above)) == Reverse(above) && Last(Reverse([t] + above)) == t;
  }

  lemma {:induction false} LineageStep(env: Env, turns: seq<Turn>, t: Turn)
    requires TurnsOk(env, turns) && t in turns
    ensures Lineage(turns, Some(t.row.id)) == [t] + Lineage(turns, t.row.parent)
  {
    var rest := Init(turns);
    if t == Last(turns) {
      StoredFits(env, turns, t);
      if t.row.parent.Some? {
        LineageExtends(env, rest, turns, t.row.parent.value);
      } else {
        NoLineage(rest);
        NoLineage(turns);
      }
    } else {
      assert t in rest;
      LineageStep(env, rest, t);
      StoredIsFound(env, rest, t);
      StoredFits(env, rest, t);
      if t.row.parent.Some? {
        LineageExtends(env, rest, turns, t.row.parent.value);
      } else {
        NoLineage(rest);
        NoLineage(turns);
      }
    }
  }

  // ---------- What one turn contributes ----------

  /** The items of an output contribute one by one, in their order. */
  lemma {:induction false} ItemsMessagesSplits(a: seq<Json>, b: seq<Json>)
    ensures ItemsMessages(a + b) == ItemsMessages(a) + ItemsMessages(b)
  {
    if b == [] {
      assert a + b == a;
    } else {
      var most, last := Init(b), OutputMessage(Last(b));
      calc {
        ItemsMessages(a + b);
        { assert Init(a + b) == a + most && Last(a + b) == Last(b); }
        ItemsMessages(a + most) + last;
        { ItemsMessagesSplits(a, most); }
        ItemsMessages(a) + ItemsMessages(most) + last;
        { AppendAssociative(ItemsMessages(a), ItemsMessages(most), last); }
        ItemsMessages(a) + ItemsMessages(b);
      }
    }
  }

  /** Of one item: a message gives its content as the assistant's, a function call itself, anything else, reasoning
      for one, nothing. */
  lemma {:induction false} OneItemContributes(x: Json)
    ensures HasField(x, "type", "message") ==>
              ItemsMessages([x]) == [Obj(map["role" := Str("assistant"), "content" := GetOr(x.fields, "content", Arr([]))])]
    ensures HasField(x, "type", "function_call") ==> ItemsMessages([x]) == [x]
    ensures !HasField(x, "type", "message") && !HasField(x, "type", "function_call") ==> ItemsMessages([x]) == []
  {
    assert Init([x]) == [];
    assert ItemsMessages([x]) == [] + OutputMessage(x);
  }

  /** A text turn: the user's text, then whatever its output contributes. */
  lemma {:induction false} TextTurnContributes(request: Fields, response: Fields, text: string, output: seq<Json>)
    requires Get(request, "input") == Str(text) && Get(response, "output") == Arr(output)
    ensures Own(request, response) == Ok([Obj(map["role" := Str("user"), "content" := Str(text)])] + ItemsMessages(output))
  {
    var user := Obj(map["role" := Str("user"), "content" := Str(text)]);
    SingleItem(user);
    assert NormalizeInput(GetOr(request, "input", Arr([]))) == [user];
    assert OutputMessages(GetOr(response, "output", Arr([]))) == Ok(ItemsMessages(output));
  }

  /** System items are filtered wherever they stand, and everything else is kept in its place. */
  lemma {:induction false} WithoutSystemSplits(a: seq<Json>, b: seq<Json>)
    ensures WithoutSystem(a + b) == WithoutSystem(a) + WithoutSystem(b)
  {
    if b == [] {
      assert a + b == a;
    } else {
      var tail := if IsSystem(Last(b)) then [] else [Last(b)];
      assert Init(a + b) == a + Init(b);
      WithoutSystemSplits(a, Init(b));
      AppendAssociative(WithoutSystem(a), WithoutSystem(Init(b)), tail);
    }
  }

  lemma {:induction false} SingleItem(x: Json)
    ensures WithoutSystem([x]) == if IsSystem(x) then [] else [x]
  {
  }

  // ---------- No old system item survives ----------

  lemma {:induction false} WithoutSystemHasNone(items: seq<Json>, x: Json)
    requires x in WithoutSystem(items)
    ensures x in items && !IsSystem(x)
  {
    var rest := Init(items);
    if x in WithoutSystem(rest) {
      WithoutSystemHasNone(rest, x);
    }
  }

  lemma {:induction false} OutputMessageRoles(items: seq<Json>, x: Json)
    requires x in ItemsMessages(items)
    ensures HasField(x, "role", "assistant") || HasField(x, "type", "function_call")
  {
    if x !in OutputMessage(Last(items)) {
      OutputMessageRoles(Init(items), x);
    }
  }

  /** From turns kept inline, no rebuilt message is an old system item: only a recorded function call could carry that
      role. */
  lemma {:induction false} NoOldInstructions(turns: seq<Turn>, x: Json)
    requires forall k :: 0 <= k < |turns| ==> turns[k].row.coldKey == None
    requires Conversation(turns).Ok? && x in Conversation(turns).value
    ensures !IsSystem(x) || HasField(x, "type", "function_call")
  {
    if x in Conversation(Init(turns)).value {
      NoOldInstructions(Init(turns), x);
    } else {
      ContributedItem(Last(turns), x);
    }
  }

  lemma {:induction false} ContributedItem(t: Turn, x: Json)
    requires t.row.coldKey == None && Contribution(t).Ok? && x in Contribution(t).value
    ensures !IsSystem(x) || HasField(x, "type", "function_call")
  {
    var kept := WithoutSystem(NormalizeInput(GetOr(t.request, "input", Arr([]))));
    if x in kept {
      WithoutSystemHasNone(NormalizeInput(GetOr(t.request, "input", Arr([]))), x);
    } else {
      OutputMessageRoles(GetOr(t.response, "output", Arr([])).elems, x);
    }
  }

  // ---------- Offloaded turns ----------

  /** What survives of a request's own input. */
  function KeptInput(request: Fields): seq<Json> {
    WithoutSystem(NormalizeInput(GetOr(request, "input", Arr([]))))
  }

  /** The one way an offloaded turn can still be rebuilt right: nothing of its input counts, and its output counts
      as the whole request (or as nothing, when the request itself looks like a system item). */
  predicate LooksLikeItsOutput(request: Fields, response: Fields) {
    && KeptInput(request) == []
    && OutputMessages(GetOr(response, "output", Arr([]))) == Ok(if IsSystem(Obj(request)) then [] else [Obj(request)])
  }

  lemma {:induction false} OffloadedIsWholeRequest(request: Fields)
    ensures OffloadedOwn(request) == Ok(if IsSystem(Obj(request)) then [] else [Obj(request)])
  {
    SingleItem(Obj(request));
  }

  /** No item of a request's own input is the request itself. */
  lemma {:induction false} KeptIsNotRequest(request: Fields, x: Json)
    requires x in KeptInput(request)
    ensures x != Obj(request)
  {
    WithoutSystemHasNone(NormalizeInput(GetOr(request, "input", Arr([]))), x);
    if "input" in request {
      assert request["input"] < Obj(request);
    }
  }

  /** The resolver rebuilds a stored turn as its own contribution exactly when the turn was not offloaded, but for one
      odd shape. */
  lemma {:induction false} OffloadingIsVisible(t: Turn, cold: Option<ColdMap>)
    requires Kept(t.row, t.request, t.response, cold)
    ensures RowMessages(t.row, cold) == Own(t.request, t.response) <==>
            t.row.coldKey == None || LooksLikeItsOutput(t.request, t.response)
  {
    RowMessagesAreContribution(t, cold);
    OffloadedIsWholeRequest(t.request);
    var kept, out := KeptInput(t.request), OutputMessages(GetOr(t.response, "output", Arr([])));
    if out.Ok? && kept != [] {
      KeptIsNotRequest(t.request, kept[0]);
      assert (kept + out.value)[0] == kept[0];
    } else if out.Ok? {
      assert kept + out.value == out.value;
    }
  }

  /** A request body as clients send it: neither a chat message nor an output item. */
  predicate RequestShaped(request: Fields) {
    "role" !in request && "type" !in request
  }

  lemma {:induction false} RequestIsNotOutput(request: Fields, output: Json)
    requires RequestShaped(request) && OutputMessages(output).Ok?
    ensures Obj(request) !in OutputMessages(output).value
  {
    if Obj(request) in OutputMessages(output).value {
      OutputMessageRoles(output.elems, Obj(request));
    }
  }

  /** For such request bodies there is no exception. */
  lemma {:induction false} OffloadingIsVisibleForRequests(t: Turn, cold: Option<ColdMap>)
    requires Kept(t.row, t.request, t.response, cold) && RequestShaped(t.request)
    ensures RowMessages(t.row, cold) == Own(t.request, t.response) <==> t.row.coldKey == None
  {
    OffloadingIsVisible(t, cold);
    if LooksLikeItsOutput(t.request, t.response) {
      RequestIsNotOutput(t.request, GetOr(t.response, "output", Arr([])));
    }
  }

  /** The whole old request body, old instructions and system items inside it included, is handed on as a message
      exactly when the turn was offloaded. */
  lemma {:induction false} OldRequestLeaksIff(t: Turn, cold: Option<ColdMap>)
    requires Kept(t.row, t.request, t.response, cold) && RequestShaped(t.request)
    ensures RowMessages(t.row, cold).Ok? && Obj(t.request) in RowMessages(t.row, cold).value <==> t.row.coldKey != None
    ensures t.row.coldKey != None ==> RowMessages(t.row, cold) == Ok([Obj(t.request)])
  {
    RowMessagesAreContribution(t, cold);
    if t.row.coldKey != None {
      OffloadedIsWholeRequest(t.request);
      assert Contribution(t).value[0] == Obj(t.request);
    } else if Own(t.request, t.response).Ok? && Obj(t.request) in Own(t.request, t.response).value {
      RequestIsNotOutput(t.request, GetOr(t.response, "output", Arr([])));
      KeptIsNotRequest(t.request, Obj(t.request));
    }
  }

  // ---------- A repaired payload ----------

  /** NOT the source's `_payload`: the same, but reading the stored request or response itself. */
  function RepairedPayload(row: Row, cold: Option<ColdMap>, field: string): Result<Fields, Failure> {
    match Payload(row, cold, field)
    case Err(e) => Err(e)
    case Ok(found) =>
      if row.coldKey.Some? && row.coldKey.value != "" then
        match GetOr(found, field, Null)
        case Obj(inner) => Ok(inner)
        case _ => Err(BadPayload)
      else Ok(found)
  }

  function RepairedRowMessages(row: Row, cold: Option<ColdMap>): Result<seq<Json>, Failure> {
    match RepairedPayload(row, cold, "input")
    case Err(e) => Err(e)
    case Ok(input) =>
      match RepairedPayload(row, cold, "output")
      case Err(e) => Err(e)
      case Ok(output) => Own(input, output)
  }

  /** With the repaired payload, offloading is invisible: every row that keeps its turn, inline or cold, is rebuilt
      as the turn's own contribution. */
  lemma {:induction false} RepairedPayloadIsTransparent(t: Turn, cold: Option<ColdMap>)
    requires Kept(t.row, t.request, t.response, cold)
    ensures RepairedRowMessages(t.row, cold) == Own(t.request, t.response)
  {
  }
}
