/** What a stored turn gives to later requests, item by item. */
module Rebuilding {
  import opened JsonValues
  import opened Store
  import opened Resolver
  import opened Recorder
  import opened Protocol
  import opened Invariants
  import opened Lineages

  // ---------- The items that count ----------

  predicate SaysSystem(x: Json) {
    x.Obj? && "role" in x.fields && x.fields["role"] == Str("system")
  }

  predicate OfType(x: Json, name: string) {
    x.Obj? && "type" in x.fields && x.fields["type"] == Str(name)
  }

  /** The message an output item counts as: the assistant's, with its content, or the recorded call itself. */
  function Counted(x: Json): Json
    requires Counts(x)
  {
    if OfType(x, "function_call") then x
    else Obj(map["role" := Str("assistant"), "content" := if "content" in x.fields then x.fields["content"] else Arr([])])
  }

  predicate Counts(x: Json) {
    OfType(x, "message") || OfType(x, "function_call")
  }

  /** `idx` lists, in order, exactly the places of the items that do not say system. */
  ghost predicate PicksOthers(idx: seq<nat>, items: seq<Json>) {
    Ascending(idx) && forall i: nat :: i in idx <==> i < |items| && !SaysSystem(items[i])
  }

  /** The same for the items that count. */
  ghost predicate PicksCounted(idx: seq<nat>, items: seq<Json>) {
    Ascending(idx) && forall i: nat :: i in idx <==> i < |items| && Counts(items[i])
  }

  predicate AreOthers(messages: seq<Json>, idx: seq<nat>, items: seq<Json>) {
    |messages| == |idx| && forall k :: 0 <= k < |idx| ==> idx[k] < |items| && messages[k] == items[idx[k]]
  }

  predicate AreCounted(messages: seq<Json>, idx: seq<nat>, items: seq<Json>) {
    |messages| == |idx| && forall k :: 0 <= k < |idx| ==> idx[k] < |items| && Counts(items[idx[k]]) && messages[k] == Counted(items[idx[k]])
  }

  /** One more place at the end. */
  lemma {:induction false} Appended(idx: seq<nat>, n: nat)
    requires Ascending(idx) && forall k :: 0 <= k < |idx| ==> idx[k] < n
    ensures Ascending(idx + [n]) && forall i: nat :: i in idx + [n] <==> i in idx || i == n
  {
  }

  lemma {:induction false} InputIsPicked(items: seq<Json>) returns (idx: seq<nat>)
    ensures PicksOthers(idx, items) && AreOthers(WithoutSystem(items), idx, items)
  {
    idx := [];
    if items != [] {
      var rest, last := Init(items), Last(items);
      idx := InputIsPicked(rest);
      assert IsSystem(last) <==> SaysSystem(last);
      if SaysSystem(last) {
        assert WithoutSystem(items) == WithoutSystem(rest);
        OtherSkipped(WithoutSystem(rest), idx, items);
      } else {
        assert WithoutSystem(items) == WithoutSystem(rest) + [last];
        OtherPicked(WithoutSystem(rest), idx, items);
        idx := idx + [|rest|];
      }
    }
  }

  lemma {:induction false} OtherSkipped(messages: seq<Json>, idx: seq<nat>, items: seq<Json>)
    requires items != [] && PicksOthers(idx, Init(items)) && AreOthers(messages, idx, Init(items)) && SaysSystem(Last(items))
    ensures PicksOthers(idx, items) && AreOthers(messages, idx, items)
  {
    assert forall i :: 0 <= i < |items| - 1 ==> items[i] == Init(items)[i];
  }

  lemma {:induction false} OtherPicked(messages: seq<Json>, idx: seq<nat>, items: seq<Json>)
    requires items != [] && PicksOthers(idx, Init(items)) && AreOthers(messages, idx, Init(items)) && !SaysSystem(Last(items))
    ensures PicksOthers(idx + [|items| - 1], items) && AreOthers(messages + [Last(items)], idx + [|items| - 1], items)
  {
    assert forall i :: 0 <= i < |items| - 1 ==> items[i] == Init(items)[i];
    Appended(idx, |items| - 1);
  }

  lemma {:induction false} OutputIsPicked(items: seq<Json>) returns (idx: seq<nat>)
    ensures PicksCounted(idx, items) && AreCounted(ItemsMessages(items), idx, items)
  {
    idx := [];
    if items != [] {
      var rest, last := Init(items), Last(items);
      idx := OutputIsPicked(rest);
      OneCounts(last);
      if Counts(last) {
        assert ItemsMessages(items) == ItemsMessages(rest) + [Counted(last)];
        CountedPicked(ItemsMessages(rest), idx, items);
        idx := idx + [|rest|];
      } else {
        assert ItemsMessages(items) == ItemsMessages(rest);
        CountedSkipped(ItemsMessages(rest), idx, items);
      }
    }
  }

  lemma {:induction false} CountedSkipped(messages: seq<Json>, idx: seq<nat>, items: seq<Json>)
    requires items != [] && PicksCounted(idx, Init(items)) && AreCounted(messages, idx, Init(items)) && !Counts(Last(items))
    ensures PicksCounted(idx, items) && AreCounted(messages, idx, items)
  {
    assert forall i :: 0 <= i < |items| - 1 ==> items[i] == Init(items)[i];
  }

  lemma {:induction false} CountedPicked(messages: seq<Json>, idx: seq<nat>, items: seq<Json>)
    requires items != [] && PicksCounted(idx, Init(items)) && AreCounted(messages, idx, Init(items)) && Counts(Last(items))
    ensures PicksCounted(idx + [|items| - 1], items)
    ensures AreCounted(messages + [Counted(Last(items))], idx + [|items| - 1], items)
  {
    assert forall i :: 0 <= i < |items| - 1 ==> items[i] == Init(items)[i];
    Appended(idx, |items| - 1);
  }

  lemma {:induction false} OneCounts(x: Json)
    ensures OutputMessage(x) == if Counts(x) then [Counted(x)] else []
  {
  }

  // ---------- A turn kept inline ----------

  /** A request's input as a list of items. */
  predicate InputGiven(request: Fields, given: seq<Json>) {
    && ("input" !in request ==> given == [])
    && ("input" in request ==>
          match request["input"]
          case Str(text) => given == [Obj(map["role" := Str("user"), "content" := Str(text)])]
          case Arr(items) => given == items
          case Obj(_) => given == [request["input"]]
          case _ => given == [])
  }

  /** The messages rebuilt from an inline turn with a list of output items: of its input, in order, exactly the items that
      do not say system, unchanged; then of its output, in order, exactly its messages and function calls. */
  lemma {:induction false} InlineTurnGives(t: Turn, cold: Option<ColdMap>, given: seq<Json>, output: seq<Json>)
    returns (kept: seq<nat>, own: seq<Json>, said: seq<nat>, answer: seq<Json>)
    requires Kept(t.row, t.request, t.response, cold) && t.row.coldKey == None && InputGiven(t.request, given)
    requires if "output" in t.response then t.response["output"] == Arr(output) else output == []
    ensures RowMessages(t.row, cold) == Ok(own + answer)
    ensures PicksOthers(kept, given) && AreOthers(own, kept, given)
    ensures PicksCounted(said, output) && AreCounted(answer, said, output) && answer == ItemsMessages(output)
  {
    RowMessagesAreContribution(t, cold);
    kept := InputIsPicked(given);
    said := OutputIsPicked(output);
    own, answer := WithoutSystem(given), ItemsMessages(output);
    assert NormalizeInput(GetOr(t.request, "input", Arr([]))) == given;
    assert OutputMessages(GetOr(t.response, "output", Arr([]))) == Ok(answer);
  }

  /** Any other output: a text or a mapping gives nothing, a null, a boolean or a number cannot be read. */
  lemma {:induction false} OddOutputGives(t: Turn, cold: Option<ColdMap>)
    requires Kept(t.row, t.request, t.response, cold) && t.row.coldKey == None
    requires "output" in t.response && !t.response["output"].Arr?
    ensures t.response["output"].Str? || t.response["output"].Obj? <==> RowMessages(t.row, cold).Ok?
    ensures !RowMessages(t.row, cold).Ok? ==> RowMessages(t.row, cold) == Err(BadPayload)
  {
    RowMessagesAreContribution(t, cold);
  }

  /** A row that names a cold object needs it: cold storage configured, the object there, and a mapping. */
  lemma {:induction false} ColdRowNeedsItsObject(row: Row, cold: Option<ColdMap>)
    requires row.coldKey.Some? && row.coldKey.value != ""
    ensures cold.None? || row.coldKey.value !in cold.value <==> RowMessages(row, cold) == Err(ColdUnavailable)
    ensures cold.Some? && row.coldKey.value in cold.value && !cold.value[row.coldKey.value].Obj? ==>
              RowMessages(row, cold) == Err(BadPayload)
  {
  }
}
