/** gateway/validator.py: unsupported features, stripped in place or rejected. */
module Validator {
  import opened JsonValues

  /** `strip` is mode == "strip"; `fields` are the dictionary's items in order, so their names are distinct. */
  datatype RejectConfig = RejectConfig(tools: seq<string>, fields: seq<(string, Json)>, presentFields: seq<string>,
                                       strip: bool, allowedToolTypes: seq<string>)

  datatype Param = ToolParam(index: nat) | FieldParam(name: string)

  /** One finding: the feature and where it was found. */
  datatype Finding = Finding(feature: string, param: Param)

  /** BadToolType is the TypeError for a tool type that cannot be looked up in a set. */
  datatype Outcome = Passed(stripped: seq<Finding>) | Rejected(finding: Finding) | BadToolType

  // ---------- Tools ----------

  function ToolType(tool: Json): Json {
    if tool.Obj? then Get(tool.fields, "type") else Null
  }

  predicate Unhashable(tool: Json) {
    ToolType(tool).Arr? || ToolType(tool).Obj?
  }

  predicate Denied(cfg: RejectConfig, tool: Json) {
    ToolType(tool).Str? && ToolType(tool).s in cfg.tools
  }

  predicate AllowListActive(cfg: RejectConfig) {
    cfg.strip && cfg.allowedToolTypes != []
  }

  /** Dropped in strip mode: denied, or missed by an active allow list. */
  predicate Dropped(cfg: RejectConfig, tool: Json) {
    Denied(cfg, tool) ||
    (AllowListActive(cfg) && ToolType(tool).Str? && ToolType(tool).s !in cfg.allowedToolTypes)
  }

  /** The tools left, in their order. */
  function Surviving(cfg: RejectConfig, tools: seq<Json>): seq<Json> {
    if tools == [] then []
    else Surviving(cfg, Init(tools)) + if Dropped(cfg, Last(tools)) then [] else [Last(tools)]
  }

  function DroppedIndices(cfg: RejectConfig, tools: seq<Json>): (r: seq<nat>)
    ensures forall k :: 0 <= k < |r| ==> r[k] < |tools| && Dropped(cfg, tools[r[k]])
  {
    if tools == [] then []
    else DroppedIndices(cfg, Init(tools)) + if Dropped(cfg, Last(tools)) then [|tools| - 1] else []
  }

  function ToolFindings(cfg: RejectConfig, tools: seq<Json>): seq<Finding> {
    if tools == [] then []
    else ToolFindings(cfg, Init(tools)) +
         if Dropped(cfg, Last(tools)) then [Finding(ToolType(Last(tools)).s, ToolParam(|tools| - 1))] else []
  }

  /** The first tool that reject mode stops at. */
  function FirstDenied(cfg: RejectConfig, tools: seq<Json>): Option<nat>
    ensures FirstDenied(cfg, tools).Some? ==>
              FirstDenied(cfg, tools).value < |tools| && Denied(cfg, tools[FirstDenied(cfg, tools).value])
  {
    if tools == [] then None
    else if FirstDenied(cfg, Init(tools)).Some? then FirstDenied(cfg, Init(tools))
    else if Denied(cfg, Last(tools)) then Some(|tools| - 1) else None
  }

  predicate AnyUnhashable(tools: seq<Json>) {
    exists k :: 0 <= k < |tools| && Unhashable(tools[k])
  }

  /** `request.get("tools") or []`. */
  function ToolsOf(request: Fields): Json {
    if Truthy(Get(request, "tools")) then request["tools"] else Arr([])
  }

  function WithTools(request: Fields, tools: seq<Json>): Fields {
    if tools == [] then request - {"tools"} else request["tools" := Arr(tools)]
  }

  // ---------- Fields ----------

  /** Python's `==` on decoded JSON: True equals 1 and False equals 0, at any depth. */
  predicate PyEq(a: Json, b: Json) {
    match (a, b)
    case (Bool(x), Num(n)) => n == if x then 1 else 0
    case (Num(n), Bool(x)) => n == if x then 1 else 0
    case (Arr(x), Arr(y)) => |x| == |y| && forall k :: 0 <= k < |x| ==> PyEq(x[k], y[k])
    case (Obj(x), Obj(y)) => x.Keys == y.Keys && forall k :: k in x ==> PyEq(x[k], y[k])
    case _ => a == b
  }

  predicate Hit(rejected: Json, actual: Json) {
    if rejected.Bool? then actual == rejected else PyEq(actual, rejected)
  }

  predicate Present(request: Fields, field: string) {
    field in request && request[field] != Null
  }

  function StripFields(fields: seq<(string, Json)>, request: Fields): (Fields, seq<Finding>) {
    if fields == [] then (request, [])
    else
      var (name, rejected) := fields[0];
      if Hit(rejected, Get(request, name)) then
        var (rest, found) := StripFields(fields[1..], request - {name});
        (rest, [Finding(name, FieldParam(name))] + found)
      else StripFields(fields[1..], request)
  }

  function RejectFields(fields: seq<(string, Json)>, request: Fields): Option<Finding> {
    if fields == [] then None
    else if Hit(fields[0].1, Get(request, fields[0].0)) then Some(Finding(fields[0].0, FieldParam(fields[0].0)))
    else RejectFields(fields[1..], request)
  }

  function StripPresent(names: seq<string>, request: Fields): (Fields, seq<Finding>) {
    if names == [] then (request, [])
    else if Present(request, names[0]) then
      var (rest, found) := StripPresent(names[1..], request - {names[0]});
      (rest, [Finding(names[0], FieldParam(names[0]))] + found)
    else StripPresent(names[1..], request)
  }

  function RejectPresent(names: seq<string>, request: Fields): Option<Finding> {
    if names == [] then None
    else if Present(request, names[0]) then Some(Finding(names[0], FieldParam(names[0])))
    else RejectPresent(names[1..], request)
  }

  // ---------- The two modes ----------

  /** The request after the tools have been looked at, and what was found there, in strip mode. */
  function StripTools(cfg: RejectConfig, request: Fields): Result<(Fields, seq<Finding>), Outcome> {
    match ToolsOf(request)
    case Arr(tools) =>
      if AnyUnhashable(tools) then Err(BadToolType)
      else Ok((WithTools(request, Surviving(cfg, tools)), ToolFindings(cfg, tools)))
    case _ => Ok((request, []))
  }

  /** The first tool that is denied or cannot be looked up decides. */
  function RejectingTools(cfg: RejectConfig, tools: seq<Json>): Outcome {
    var first := FirstDenied(cfg, tools);
    if first.Some? && !AnyUnhashable(tools[..first.value])
    then Rejected(Finding(ToolType(tools[first.value]).s, ToolParam(first.value)))
    else if AnyUnhashable(tools) then BadToolType
    else Passed([])
  }

  function RejectTools(cfg: RejectConfig, request: Fields): Result<Fields, Outcome> {
    match ToolsOf(request)
    case Arr(tools) =>
      var outcome := RejectingTools(cfg, tools);
      if outcome.Passed? then Ok(WithTools(request, tools)) else Err(outcome)
    case _ => Ok(request)
  }

  function AsOutcome(hit: Option<Finding>): Outcome {
    if hit.Some? then Rejected(hit.value) else Passed([])
  }

  function Strip(cfg: RejectConfig, request: Fields): (Fields, Outcome) {
    match StripTools(cfg, request)
    case Err(o) => (request, o)
    case Ok((r1, found1)) =>
      var (r2, found2) := StripFields(cfg.fields, r1);
      var (r3, found3) := StripPresent(cfg.presentFields, r2);
      (r3, Passed(found1 + found2 + found3))
  }

  function Reject(cfg: RejectConfig, request: Fields): (Fields, Outcome) {
    match RejectTools(cfg, request)
    case Err(o) => (request, o)
    case Ok(r1) =>
      var hit := RejectFields(cfg.fields, r1);
      (r1, AsOutcome(if hit.Some? then hit else RejectPresent(cfg.presentFields, r1)))
  }

  // ---------- The validator object ----------

  class Request {
    var body: Fields

    constructor (body: Fields)
      ensures this.body == body
    {
      this.body := body;
    }
  }

  class RequestValidator {
    const cfg: RejectConfig

    constructor (cfg: RejectConfig)
      ensures this.cfg == cfg
    {
      this.cfg := cfg;
    }

    /** Looks at tools, then at rejected values, then at mere presence; strips in place or stops at the first find. */
    method Validate(request: Request) returns (outcome: Outcome)
      modifies request
      ensures (request.body, outcome) == if cfg.strip then Strip(cfg, old(request.body)) else Reject(cfg, old(request.body))
    {
      outcome := Passed([]);
      match ToolsOf(request.body) {
        case Arr(tools) => outcome := ValidateTools(request, tools);
        case _ =>
      }
      if !outcome.Passed? {
        return;
      }
      var stripped := outcome.stripped;
      outcome := ValidateFields(request);
      if !outcome.Passed? {
        return;
      }
      stripped := stripped + outcome.stripped;
      outcome := ValidatePresent(request);
      if outcome.Passed? {
        assert !cfg.strip ==> stripped + outcome.stripped == [];
        outcome := Passed(stripped + outcome.stripped);
      }
    }

    method ValidateTools(request: Request, toolList: seq<Json>) returns (outcome: Outcome)
      requires ToolsOf(request.body) == Arr(toolList)
      modifies request
      ensures cfg.strip ==> match StripTools(cfg, old(request.body))
                            case Err(o) => outcome == o && request.body == old(request.body)
                            case Ok((body, found)) => outcome == Passed(found) && request.body == body
      ensures !cfg.strip ==> match RejectTools(cfg, old(request.body))
                             case Err(o) => outcome == o && request.body == old(request.body)
                             case Ok(body) => outcome == Passed([]) && request.body == body
    {
      var indicesToDrop;
      outcome, indicesToDrop := InspectTools(toolList);
      if !outcome.Passed? {
        return;
      }
      var tools := PopIndices(toolList, indicesToDrop);
      if tools == [] {
        request.body := request.body - {"tools"};
      } else {
        request.body := request.body["tools" := Arr(tools)];
      }
    }

    /** The loop over the tools: what is found, and which indices to drop. */
    method InspectTools(toolList: seq<Json>) returns (outcome: Outcome, indicesToDrop: seq<nat>)
      ensures cfg.strip ==> outcome == if AnyUnhashable(toolList) then BadToolType else Passed(ToolFindings(cfg, toolList))
      ensures !cfg.strip ==> outcome == RejectingTools(cfg, toolList)
      ensures outcome.Passed? ==> indicesToDrop == DroppedIndices(cfg, toolList)
      ensures outcome.Passed? && !cfg.strip ==> Surviving(cfg, toolList) == toolList
    {
      var stripped := [];
      indicesToDrop := [];
      for i := 0 to |toolList|
        invariant !AnyUnhashable(toolList[..i])
        invariant !cfg.strip ==> FirstDenied(cfg, toolList[..i]) == None && stripped == []
        invariant cfg.strip ==> stripped == ToolFindings(cfg, toolList[..i])
        invariant indicesToDrop == DroppedIndices(cfg, toolList[..i])
      {
        var tool := toolList[i];
        PrefixStep(cfg, toolList, i);
        if Unhashable(tool) {
          if !cfg.strip {
            UnhashableStops(cfg, toolList, i);
          }
          return BadToolType, [];
        }
        if Denied(cfg, tool) {
          if !cfg.strip {
            DeniedStops(cfg, toolList, i);
            return Rejected(Finding(ToolType(tool).s, ToolParam(i))), [];
          }
          stripped := stripped + [Finding(ToolType(tool).s, ToolParam(i))];
          indicesToDrop := indicesToDrop + [i];
        } else if AllowListActive(cfg) && ToolType(tool).Str? && ToolType(tool).s !in cfg.allowedToolTypes {
          stripped := stripped + [Finding(ToolType(tool).s, ToolParam(i))];
          indicesToDrop := indicesToDrop + [i];
        }
      }
      assert toolList[..|toolList|] == toolList;
      if !cfg.strip {
        NoDenialNoDrop(cfg, toolList);
        NothingDropped(cfg, toolList);
      }
      outcome := Passed(stripped);
    }

    /** Pops the given indices from the last to the first, so that earlier ones stay valid. */
    method PopIndices(toolList: seq<Json>, indicesToDrop: seq<nat>) returns (tools: seq<Json>)
      requires indicesToDrop == DroppedIndices(cfg, toolList)
      ensures tools == Surviving(cfg, toolList)
    {
      tools := toolList;
      var k := |indicesToDrop|;
      ghost var cut, tail := |toolList|, [];
      assert toolList[..cut] == toolList && indicesToDrop[..k] == indicesToDrop;
      while k > 0
        invariant 0 <= k <= |indicesToDrop| && cut <= |toolList|
        invariant indicesToDrop[..k] == DroppedIndices(cfg, toolList[..cut])
        invariant tools == toolList[..cut] + tail && Surviving(cfg, toolList[..cut]) + tail == Surviving(cfg, toolList)
      {
        k := k - 1;
        var i := indicesToDrop[k];
        assert Last(indicesToDrop[..k + 1]) == i && Init(indicesToDrop[..k + 1]) == indicesToDrop[..k];
        PopLast(cfg, toolList, cut, tail, i);
        tools := tools[..i] + tools[i + 1..];
        cut, tail := i, toolList[i + 1..cut] + tail;
      }
      NothingDropped(cfg, toolList[..cut]);
    }

    method ValidateFields(request: Request) returns (outcome: Outcome)
      modifies request
      ensures cfg.strip ==> var (body, found) := StripFields(cfg.fields, old(request.body));
                            outcome == Passed(found) && request.body == body
      ensures !cfg.strip ==> request.body == old(request.body)
      ensures !cfg.strip ==> outcome == AsOutcome(RejectFields(cfg.fields, request.body))
    {
      var stripped := [];
      assert cfg.fields[0..] == cfg.fields && [] + StripFields(cfg.fields, request.body).1 == StripFields(cfg.fields, request.body).1;
      for i := 0 to |cfg.fields|
        invariant cfg.strip ==>
                    StripFields(cfg.fields, old(request.body)) ==
                    (StripFields(cfg.fields[i..], request.body).0, stripped + StripFields(cfg.fields[i..], request.body).1)
        invariant !cfg.strip ==> request.body == old(request.body) && stripped == []
        invariant !cfg.strip ==> RejectFields(cfg.fields, request.body) == RejectFields(cfg.fields[i..], request.body)
      {
        var (name, rejected) := cfg.fields[i];
        assert cfg.fields[i..][0] == cfg.fields[i] && cfg.fields[i..][1..] == cfg.fields[i + 1..];
        if Hit(rejected, Get(request.body, name)) {
          if !cfg.strip {
            return Rejected(Finding(name, FieldParam(name)));
          }
          AppendAssociative(stripped, [Finding(name, FieldParam(name))], StripFields(cfg.fields[i + 1..], request.body - {name}).1);
          stripped := stripped + [Finding(name, FieldParam(name))];
          request.body := request.body - {name};
        }
      }
      outcome := Passed(stripped);
    }

    method ValidatePresent(request: Request) returns (outcome: Outcome)
      modifies request
      ensures cfg.strip ==> var (body, found) := StripPresent(cfg.presentFields, old(request.body));
                            outcome == Passed(found) && request.body == body
      ensures !cfg.strip ==> request.body == old(request.body)
      ensures !cfg.strip ==> outcome == AsOutcome(RejectPresent(cfg.presentFields, request.body))
    {
      var stripped := [];
      assert cfg.presentFields[0..] == cfg.presentFields;
      assert [] + StripPresent(cfg.presentFields, request.body).1 == StripPresent(cfg.presentFields, request.body).1;
      for i := 0 to |cfg.presentFields|
        invariant cfg.strip ==>
                    StripPresent(cfg.presentFields, old(request.body)) ==
                    (StripPresent(cfg.presentFields[i..], request.body).0, stripped + StripPresent(cfg.presentFields[i..], request.body).1)
        invariant !cfg.strip ==> request.body == old(request.body) && stripped == []
        invariant !cfg.strip ==> RejectPresent(cfg.presentFields, request.body) == RejectPresent(cfg.presentFields[i..], request.body)
      {
        var name := cfg.presentFields[i];
        assert cfg.presentFields[i..][0] == name && cfg.presentFields[i..][1..] == cfg.presentFields[i + 1..];
        if Present(request.body, name) {
          if !cfg.strip {
            return Rejected(Finding(name, FieldParam(name)));
          }
          AppendAssociative(stripped, [Finding(name, FieldParam(name))], StripPresent(cfg.presentFields[i + 1..], request.body - {name}).1);
          stripped := stripped + [Finding(name, FieldParam(name))];
          request.body := request.body - {name};
        }
      }
      outcome := Passed(stripped);
    }
  }

  // ---------- Facts the loops need ----------

  /** One more tool looked at. */
  lemma {:induction false} PrefixStep(cfg: RejectConfig, tools: seq<Json>, i: nat)
    requires i < |tools|
    ensures var before, now := tools[..i], tools[..i + 1];
            && now != [] && Init(now) == before && Last(now) == tools[i]
            && (AnyUnhashable(now) <==> AnyUnhashable(before) || Unhashable(tools[i]))
    ensures Unhashable(tools[i]) ==> AnyUnhashable(tools)
  {
  }

  lemma {:induction false} FirstDeniedFacts(cfg: RejectConfig, tools: seq<Json>)
    ensures match FirstDenied(cfg, tools)
            case Some(i) => Denied(cfg, tools[i]) && forall k :: 0 <= k < i ==> !Denied(cfg, tools[k])
            case None => forall k :: 0 <= k < |tools| ==> !Denied(cfg, tools[k])
  {
    if tools != [] {
      FirstDeniedFacts(cfg, Init(tools));
    }
  }

  lemma {:induction false} UnhashableStops(cfg: RejectConfig, tools: seq<Json>, i: nat)
    requires i < |tools| && Unhashable(tools[i]) && FirstDenied(cfg, tools[..i]) == None
    ensures AnyUnhashable(tools)
    ensures FirstDenied(cfg, tools).Some? ==> AnyUnhashable(tools[..FirstDenied(cfg, tools).value])
  {
    FirstDeniedFacts(cfg, tools[..i]);
    FirstDeniedFacts(cfg, tools);
    if FirstDenied(cfg, tools).Some? {
      var f := FirstDenied(cfg, tools).value;
      assert forall k :: 0 <= k < i ==> tools[..i][k] == tools[k];
      assert tools[..f][i] == tools[i];
    }
  }

  lemma {:induction false} DeniedStops(cfg: RejectConfig, tools: seq<Json>, i: nat)
    requires i < |tools| && Denied(cfg, tools[i]) && FirstDenied(cfg, tools[..i]) == None
    ensures FirstDenied(cfg, tools) == Some(i)
  {
    FirstDeniedFacts(cfg, tools[..i]);
    FirstDeniedFacts(cfg, tools);
    assert forall k :: 0 <= k < i ==> tools[..i][k] == tools[k];
  }

  lemma {:induction false} NothingDropped(cfg: RejectConfig, tools: seq<Json>)
    requires DroppedIndices(cfg, tools) == []
    ensures Surviving(cfg, tools) == tools && ToolFindings(cfg, tools) == []
  {
    if tools != [] {
      NothingDropped(cfg, Init(tools));
      assert Init(tools) + [Last(tools)] == tools;
    }
  }

  lemma {:induction false} LastDroppedIndex(cfg: RejectConfig, tools: seq<Json>)
    requires DroppedIndices(cfg, tools) != []
    ensures Init(DroppedIndices(cfg, tools)) == DroppedIndices(cfg, tools[..Last(DroppedIndices(cfg, tools))])
  {
    var rest := Init(tools);
    if Dropped(cfg, Last(tools)) {
      assert DroppedIndices(cfg, tools) == DroppedIndices(cfg, rest) + [|tools| - 1];
    } else {
      assert DroppedIndices(cfg, tools) == DroppedIndices(cfg, rest);
      LastDroppedIndex(cfg, rest);
      var i := Last(DroppedIndices(cfg, rest));
      assert rest[..i] == tools[..i];
    }
  }

  /** The last dropped index splits the survivors. */
  lemma {:induction false} LastDropped(cfg: RejectConfig, tools: seq<Json>, i: nat)
    requires DroppedIndices(cfg, tools) != [] && i == Last(DroppedIndices(cfg, tools))
    ensures Surviving(cfg, tools) == Surviving(cfg, tools[..i]) + tools[i + 1..]
  {
    var rest := Init(tools);
    if Dropped(cfg, Last(tools)) {
      assert i == |tools| - 1 && tools[..i] == rest && tools[i + 1..] == [];
    } else {
      assert DroppedIndices(cfg, tools) == DroppedIndices(cfg, rest);
      LastDropped(cfg, rest, i);
      assert rest[..i] == tools[..i] && rest[i + 1..] + [Last(tools)] == tools[i + 1..];
      AppendAssociative(Surviving(cfg, rest[..i]), rest[i + 1..], [Last(tools)]);
    }
  }

  /** One pop, at the last index still to drop. */
  lemma {:induction false} PopLast(cfg: RejectConfig, toolList: seq<Json>, cut: nat, tail: seq<Json>, i: nat)
    requires cut <= |toolList| && DroppedIndices(cfg, toolList[..cut]) != []
    requires i == Last(DroppedIndices(cfg, toolList[..cut]))
    ensures i < cut && Init(DroppedIndices(cfg, toolList[..cut])) == DroppedIndices(cfg, toolList[..i])
    ensures var tools := toolList[..cut] + tail;
            tools[..i] + tools[i + 1..] == toolList[..i] + (toolList[i + 1..cut] + tail)
    ensures Surviving(cfg, toolList[..i]) + (toolList[i + 1..cut] + tail) == Surviving(cfg, toolList[..cut]) + tail
  {
    var part := toolList[..cut];
    LastDroppedIndex(cfg, part);
    LastDropped(cfg, part, i);
    assert part[..i] == toolList[..i] && part[i + 1..] == toolList[i + 1..cut];
    AppendAssociative(Surviving(cfg, part[..i]), part[i + 1..], tail);
  }

  lemma {:induction false} NoDenialNoDrop(cfg: RejectConfig, tools: seq<Json>)
    requires !cfg.strip && FirstDenied(cfg, tools) == None
    ensures DroppedIndices(cfg, tools) == []
  {
    if tools != [] {
      NoDenialNoDrop(cfg, Init(tools));
    }
  }
}
