/** What the record of a streamed turn says, and what of it reaches the next turn. */
module StreamedRecord {
  import opened JsonValues
  import opened Store
  import opened Resolver
  import opened Recorder
  import opened Streaming
  import opened StreamRepair
  import opened StreamSpelling
  import opened StreamText
  import opened StreamConservation
  import opened Protocol
  import opened Invariants
  import opened Lineages
  import opened Rebuilding
  import opened Api

  // ---------- The recorded output, item by item ----------

  /** The object says what the part says: its type, its text, and every other key as it was. */
  predicate SaysPart(j: Json, p: Part) {
    && j.Obj? && j.fields.Keys == p.extra.Keys + {"type", "text"}
    && j.fields["type"] == Str(p.ptype) && j.fields["text"] == Str(p.text)
    && forall key :: key in p.extra && key != "type" && key != "text" ==> j.fields[key] == p.extra[key]
  }

  predicate SaysParts(elems: seq<Json>, parts: seq<Part>) {
    |elems| == |parts| && forall k :: 0 <= k < |parts| ==> SaysPart(elems[k], parts[k])
  }

  /** The key is there exactly when the item has the field, and then with its text. */
  predicate SaysText(fields: Fields, key: string, text: Option<string>) {
    if text.Some? then key in fields && fields[key] == Str(text.value) else key !in fields
  }

  /** The object says what the item says, field by field. */
  predicate SaysItem(j: Json, item: Item) {
    && j.Obj?
    && SaysText(j.fields, "id", item.id) && SaysText(j.fields, "type", item.itype) && SaysText(j.fields, "arguments", item.arguments)
    && (item.content.None? ==> "content" !in j.fields)
    && (item.content.Some? ==> "content" in j.fields && j.fields["content"].Arr?
                               && SaysParts(j.fields["content"].elems, item.content.value))
    && forall key :: key in j.fields.Keys + item.extra.Keys && key !in {"id", "type", "content", "arguments"} ==>
         key in j.fields && key in item.extra && j.fields[key] == item.extra[key]
  }

  lemma {:induction false} PartsAreSaid(parts: seq<Part>)
    ensures SaysParts(PartsJson(parts), parts)
  {
    if parts != [] {
      var rest, last := Init(parts), Last(parts);
      PartsAreSaid(rest);
      assert SaysPart(PartJson(last), last);
      assert forall k :: 0 <= k < |rest| ==> parts[k] == rest[k];
    }
  }

  lemma {:induction false} ItemIsSaid(item: Item)
    ensures SaysItem(ItemJson(item), item)
  {
    if item.content.Some? {
      PartsAreSaid(item.content.value);
    }
  }

  lemma {:induction false} ItemsAreSaid(items: seq<Item>)
    ensures |ItemsJson(items)| == |items| && forall k :: 0 <= k < |items| ==> SaysItem(ItemsJson(items)[k], items[k])
  {
    if items != [] {
      ItemsAreSaid(Init(items));
      ItemIsSaid(Last(items));
      assert forall k :: 0 <= k < |items| - 1 ==> items[k] == Init(items)[k];
    }
  }

  /** What the bridge ends with for a source whose response ids are rewritten. */
  function EndOf(newId: string, source: seq<Event>): Acc {
    Accumulate(Events(Forward(RewriteAll(Some(newId), source))))
  }

  /** The record of a streamed turn: the gateway's id, one object for each announcement with what its item says, and every
      other field as the bridge has it. */
  lemma {:induction false} RecordSays(newId: string, source: seq<Event>)
    ensures var a, r := EndOf(newId, source), StreamedResponse(newId, source);
            && "id" in r && r["id"] == Str(newId)
            && "output" in r && r["output"].Arr? && |r["output"].elems| == |a.order|
            && (forall k :: 0 <= k < |a.order| ==> a.order[k] in a.items && SaysItem(r["output"].elems[k], a.items[a.order[k]]))
            && r - {"id", "output"} == a.response - {"id", "output"}
  {
    var a := EndOf(newId, source);
    OrderIsCovered(Events(Forward(RewriteAll(Some(newId), source))));
    ItemsAreSaid(Output(a));
  }

  // ---------- The text of the answer ----------

  function TextOfPart(j: Json): string {
    if OfType(j, "output_text") && "text" in j.fields && j.fields["text"].Str? then j.fields["text"].s else ""
  }

  function TextOfParts(elems: seq<Json>): string {
    if elems == [] then "" else TextOfParts(Init(elems)) + TextOfPart(Last(elems))
  }

  /** The text of a rebuilt message of the assistant. */
  function SaidBy(message: Json): string {
    if message.Obj? && message.fields.Keys == {"role", "content"} && message.fields["role"] == Str("assistant")
       && message.fields["content"].Arr?
    then TextOfParts(message.fields["content"].elems) else ""
  }

  /** The text of all messages of the assistant, in order. */
  function AnswerText(messages: seq<Json>): string {
    if messages == [] then "" else AnswerText(Init(messages)) + SaidBy(Last(messages))
  }

  lemma {:induction false} PartsTextIsSaid(elems: seq<Json>, parts: seq<Part>)
    requires SaysParts(elems, parts)
    ensures TextOfParts(elems) == PartsText(parts)
  {
    if parts != [] {
      assert SaysPart(elems[|parts| - 1], parts[|parts| - 1]);
      assert forall k :: 0 <= k < |parts| - 1 ==> Init(elems)[k] == elems[k] && Init(parts)[k] == parts[k];
      PartsTextIsSaid(Init(elems), Init(parts));
    }
  }

  /** A recorded item contributes the text that it shows: all of it when it is a message, none otherwise. */
  lemma {:induction false} ItemTextIsSaid(j: Json, item: Item)
    requires SaysItem(j, item)
    ensures AnswerText(OutputMessage(j)) == Shown(item)
  {
    OneCounts(j);
    if Counts(j) {
      OneMessageText(Counted(j));
      if OfType(j, "message") {
        MessageTextIsSaid(j, item);
      }
    }
  }

  lemma {:induction false} OneMessageText(m: Json)
    ensures AnswerText([m]) == SaidBy(m)
  {
    assert Init([m]) == [] && AnswerText([m]) == "" + SaidBy(m);
  }

  lemma {:induction false} MessageTextIsSaid(j: Json, item: Item)
    requires SaysItem(j, item) && OfType(j, "message")
    ensures SaidBy(Counted(j)) == TextOf(item)
  {
    if item.content.Some? {
      PartsTextIsSaid(j.fields["content"].elems, item.content.value);
    }
  }

  lemma {:induction false} AnswerTextSplits(a: seq<Json>, b: seq<Json>)
    ensures AnswerText(a + b) == AnswerText(a) + AnswerText(b)
  {
    if b == [] {
      assert a + b == a;
    } else {
      assert Init(a + b) == a + Init(b) && Last(a + b) == Last(b);
      AnswerTextSplits(a, Init(b));
      AppendAssociative(AnswerText(a), AnswerText(Init(b)), SaidBy(Last(b)));
    }
  }

  lemma {:induction false} OutputTextIsSaid(elems: seq<Json>, order: seq<string>, items: map<string, Item>)
    requires |elems| == |order|
    requires forall k :: 0 <= k < |order| ==> order[k] in items && SaysItem(elems[k], items[order[k]])
    ensures AnswerText(ItemsMessages(elems)) == OutputText(order, items)
  {
    if order != [] {
      var n := |order| - 1;
      assert forall k :: 0 <= k < n ==> Init(elems)[k] == elems[k] && Init(order)[k] == order[k];
      OutputTextIsSaid(Init(elems), Init(order), items);
      ItemTextIsSaid(elems[n], items[order[n]]);
      AnswerTextSplits(ItemsMessages(Init(elems)), OutputMessage(Last(elems)));
    }
  }

  /** From the record of a streamed turn kept inline, the next turn is given, after the turn's own input, messages that
      hold exactly the text of the bridge's output. */
  lemma {:induction false} StreamedTextReachesNextTurn(t: Turn, cold: Option<ColdMap>, newId: string, source: seq<Event>, given: seq<Json>)
    returns (kept: seq<nat>, own: seq<Json>, said: seq<nat>, answer: seq<Json>)
    requires Kept(t.row, t.request, t.response, cold) && t.row.coldKey == None
    requires t.response == StreamedResponse(newId, source) && InputGiven(t.request, given)
    ensures RowMessages(t.row, cold) == Ok(own + answer)
    ensures PicksOthers(kept, given) && AreOthers(own, kept, given)
    ensures PicksCounted(said, t.response["output"].elems) && AreCounted(answer, said, t.response["output"].elems)
    ensures AnswerText(answer) == TextNow(Events(Forward(source)))
  {
    RecordSays(newId, source);
    var output := t.response["output"].elems;
    kept, own, said, answer := InlineTurnGives(t, cold, given, output);
    var a := EndOf(newId, source);
    OutputTextIsSaid(output, a.order, a.items);
    SameText(newId, source);
  }

  lemma {:induction false} SameText(newId: string, source: seq<Event>)
    ensures OutputText(EndOf(newId, source).order, EndOf(newId, source).items) == TextNow(Events(Forward(source)))
  {
    ForwardAccumulatesSpelled(RewriteAll(Some(newId), source));
    ForwardAccumulatesSpelled(source);
    RewrittenSpelled(Some(newId), source);
  }

  /** So all text that a well-behaved provider streamed reaches the next turn, in arrival order. */
  lemma {:induction false} AllTextReachesNextTurn(t: Turn, cold: Option<ColdMap>, newId: string, source: seq<Event>, given: seq<Json>)
    returns (own: seq<Json>, answer: seq<Json>)
    requires Kept(t.row, t.request, t.response, cold) && t.row.coldKey == None
    requires t.response == StreamedResponse(newId, source) && InputGiven(t.request, given)
    requires PlainAnnouncements(source) && AnnouncedOnce(source) && DeltasNameMessages(source)
    requires forall k :: 0 <= k < |source| ==> Confirms(Spelled(source[..k]), source[k])
    ensures RowMessages(t.row, cold) == Ok(own + answer) && AnswerText(answer) == Deltas(source)
  {
    var kept, said;
    kept, own, said, answer := StreamedTextReachesNextTurn(t, cold, newId, source, given);
    BridgeConservesText(source);
  }
}
