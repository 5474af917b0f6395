/** gateway/streaming.py: the events of a Responses stream and the bridge that repairs and accumulates them. */
module Streaming {
  import opened JsonValues

  // ---------- Events and output items ----------

  datatype Kind =
    | Created | InProgress | Completed | Failed | Incomplete
    | ItemAdded | ItemDone
    | PartAdded | PartDone
    | TextDelta | TextDone
    | RefusalDelta | RefusalDone
    | ArgsDelta
    | Other(name: string)

  datatype Part = Part(ptype: string, text: string, extra: Fields)

  /** One output item; each field but `extra`, which holds everything unread, may be absent. */
  datatype Item = Item(id: Option<string>, itype: Option<string>, content: Option<seq<Part>>,
                       arguments: Option<string>, extra: Fields)

  /** One stream event.  Each field is what the bridge reads with `event.get`; the rest is in `extra`. */
  datatype Event = Event(kind: Kind, itemId: Option<string>, outputIndex: Json, contentIndex: int,
                         delta: string, item: Item, response: Option<Fields>, extra: Fields)

  const NO_ITEM := Item(None, None, None, None, map[])

  predicate Lifecycle(k: Kind) {
    k.Created? || k.InProgress? || k.Completed? || k.Failed? || k.Incomplete?
  }

  predicate MessageKind(k: Kind) {
    k.TextDelta? || k.TextDone? || k.RefusalDelta? || k.RefusalDone? || k.PartAdded? || k.PartDone?
  }

  predicate TextKind(k: Kind) {
    k.TextDelta? || k.TextDone?
  }

  /** The id is present and not the empty string. */
  predicate Real(id: Option<string>) {
    id.Some? && id.value != ""
  }

  // ---------- Rewriting the response id ----------

  function Rewrite(rewriteId: Option<string>, e: Event): Event {
    if Real(rewriteId) && Lifecycle(e.kind) && e.response.Some?
    then e.(response := Some(e.response.value["id" := Str(rewriteId.value)]))
    else e
  }

  function RewriteAll(rewriteId: Option<string>, src: seq<Event>): (r: seq<Event>)
    ensures |r| == |src|
    ensures forall k :: 0 <= k < |src| ==> r[k] == Rewrite(rewriteId, src[k])
  {
    seq(|src|, k requires 0 <= k < |src| => Rewrite(rewriteId, src[k]))
  }

  lemma {:induction false} RewriteAllStep(rewriteId: Option<string>, src: seq<Event>, i: nat)
    requires i < |src|
    ensures RewriteAll(rewriteId, src[..i + 1]) == RewriteAll(rewriteId, src[..i]) + [Rewrite(rewriteId, src[i])]
  {
  }

  // ---------- Repairing announcements ----------

  /** What the bridge believes the client has been told: item ids and (item id, content index) parts. */
  datatype Book = Book(items: set<string>, parts: set<(string, int)>)

  const EMPTY_BOOK := Book({}, {})

  /** The announcement made up for a message item the provider did not announce. */
  function ItemNotice(id: string, outputIndex: Json): Event {
    Event(ItemAdded, None, outputIndex, 0, "",
          Item(Some(id), Some("message"), Some([]), None, map["role" := Str("assistant"), "status" := Str("in_progress")]),
          None, map[])
  }

  function PartNotice(id: string, contentIndex: int, outputIndex: Json): Event {
    Event(PartAdded, Some(id), outputIndex, contentIndex, "", NO_ITEM, None,
          map["part" := Obj(map["type" := Str("output_text"), "text" := Str(""), "annotations" := Arr([])])])
  }

  /** Parts known once the bridge has looked at the event itself, before anything is made up. */
  function OwnParts(book: Book, e: Event): set<(string, int)> {
    if e.kind.PartAdded? && Real(e.itemId) then book.parts + {(e.itemId.value, e.contentIndex)} else book.parts
  }

  /** The announcements inserted in front of `e`. */
  function Missing(book: Book, e: Event): seq<Event> {
    if !MessageKind(e.kind) || e.itemId.None? then []
    else
      var id := e.itemId.value;
      (if id in book.items then [] else [ItemNotice(id, e.outputIndex)]) +
      (if TextKind(e.kind) && (id, e.contentIndex) !in book.parts
       then [PartNotice(id, e.contentIndex, e.outputIndex)] else [])
  }

  /** The book after `e` and its inserted announcements. */
  function Noted(book: Book, e: Event): Book {
    if e.kind.ItemAdded? then
      if Real(e.item.id) then book.(items := book.items + {e.item.id.value}) else book
    else if !MessageKind(e.kind) || e.itemId.None? then book
    else
      var id := e.itemId.value;
      Book(book.items + {id}, OwnParts(book, e) + if TextKind(e.kind) then {(id, e.contentIndex)} else {})
  }

  /** A forwarded event, marked when the bridge made it up. */
  datatype Out = Out(event: Event, synthetic: bool)

  function Tag(es: seq<Event>, synthetic: bool): (r: seq<Out>)
    ensures |r| == |es|
    ensures forall k :: 0 <= k < |es| ==> r[k] == Out(es[k], synthetic)
  {
    seq(|es|, k requires 0 <= k < |es| => Out(es[k], synthetic))
  }

  function Emit(book: Book, e: Event): seq<Out> {
    Tag(Missing(book, e), true) + [Out(e, false)]
  }

  function BookAfter(src: seq<Event>): Book {
    if src == [] then EMPTY_BOOK else Noted(BookAfter(Init(src)), Last(src))
  }

  /** Everything forwarded for a source whose ids are already rewritten. */
  function Forward(src: seq<Event>): seq<Out> {
    if src == [] then [] else Forward(Init(src)) + Emit(BookAfter(Init(src)), Last(src))
  }

  function Events(outs: seq<Out>): (r: seq<Event>)
    ensures |r| == |outs|
    ensures forall k :: 0 <= k < |outs| ==> r[k] == outs[k].event
  {
    seq(|outs|, k requires 0 <= k < |outs| => outs[k].event)
  }

  // ---------- Accumulating the final response ----------

  datatype Acc = Acc(items: map<string, Item>, order: seq<string>, response: Fields)

  const EMPTY_ACC := Acc(map[], [], map["output" := Arr([]), "usage" := Obj(map[])])

  function WithDefault(d: Fields, key: string, default: Json): Fields {
    if key in d then d else d[key := default]
  }

  /** Appends a text delta to the item's last output_text part, opening one when there is none. */
  function AddText(item: Item, delta: string): Item {
    var content := if item.content.Some? then item.content.value else [];
    var open := if content == [] || Last(content).ptype != "output_text"
                then content + [Part("output_text", "", map[])] else content;
    item.(content := Some(Init(open) + [Last(open).(text := Last(open).text + delta)]))
  }

  function ArgText(item: Item): string {
    if item.arguments.Some? then item.arguments.value else ""
  }

  /** The last announced id whose item currently has the type. */
  function Latest(order: seq<string>, items: map<string, Item>, itype: string): (r: Option<string>)
    ensures r.Some? ==> r.value in items && items[r.value].itype == Some(itype)
  {
    if order == [] then None
    else if Last(order) in items && items[Last(order)].itype == Some(itype) then Some(Last(order))
    else Latest(Init(order), items, itype)
  }

  function Consume(a: Acc, e: Event): Acc {
    match e.kind
    case Created =>
      var merged := a.response + if e.response.Some? then e.response.value else map[];
      a.(response := WithDefault(WithDefault(merged, "output", Arr([])), "usage", Obj(map[])))
    case ItemAdded =>
      if Real(e.item.id)
      then a.(items := a.items[e.item.id.value := e.item], order := a.order + [e.item.id.value])
      else a
    case TextDelta =>
      var m := Latest(a.order, a.items, "message");
      if m.Some? then a.(items := a.items[m.value := AddText(a.items[m.value], e.delta)]) else a
    case ArgsDelta =>
      if Real(e.itemId) && e.itemId.value in a.items
      then var item := a.items[e.itemId.value];
           a.(items := a.items[e.itemId.value := item.(arguments := Some(ArgText(item) + e.delta))])
      else a
    case ItemDone =>
      if Real(e.item.id) then a.(items := a.items[e.item.id.value := e.item]) else a
    case Completed =>
      var usage := if e.response.Some? then Get(e.response.value, "usage") else Null;
      if Truthy(usage) then a.(response := a.response["usage" := usage]) else a
    case _ => a
  }

  function Accumulate(trace: seq<Event>): Acc {
    if trace == [] then EMPTY_ACC else Consume(Accumulate(Init(trace)), Last(trace))
  }

  lemma {:induction false} AccumulateAppend(trace: seq<Event>, e: Event)
    ensures Accumulate(trace + [e]) == Consume(Accumulate(trace), e)
  {
  }

  /** Every announced id has an item, so building the final output never meets a missing key. */
  predicate Covered(a: Acc) {
    forall id :: id in a.order ==> id in a.items
  }

  lemma {:induction false} OrderIsCovered(trace: seq<Event>)
    ensures Covered(Accumulate(trace))
  {
    if trace != [] {
      OrderIsCovered(Init(trace));
    }
  }

  /** The final response: the lifecycle fields and the output items in announcement order. */
  datatype Final = Final(fields: Fields, output: seq<Item>)

  function Output(a: Acc): (r: seq<Item>)
    requires Covered(a)
    ensures |r| == |a.order|
    ensures forall k :: 0 <= k < |r| ==> r[k] == a.items[a.order[k]]
  {
    seq(|a.order|, k requires 0 <= k < |a.order| => a.items[a.order[k]])
  }

  lemma {:induction false} EventsAppend(outs: seq<Out>, emitted: seq<Event>, e: Event)
    ensures Events(outs + (Tag(emitted, true) + [Out(e, false)])) == Events(outs) + emitted + [e]
  {
  }

  lemma {:induction false} ForwardStep(src: seq<Event>, e: Event)
    ensures BookAfter(src + [e]) == Noted(BookAfter(src), e)
    ensures Forward(src + [e]) == Forward(src) + Emit(BookAfter(src), e)
    ensures Events(Forward(src + [e])) == Events(Forward(src)) + Missing(BookAfter(src), e) + [e]
  {
    assert Init(src + [e]) == src && Last(src + [e]) == e;
    EventsAppend(Forward(src), Missing(BookAfter(src), e), e);
  }

  /** The same step, seen from the longer source. */
  lemma {:induction false} ForwardLast(src: seq<Event>)
    requires src != []
    ensures BookAfter(src) == Noted(BookAfter(Init(src)), Last(src))
    ensures Events(Forward(src)) ==
            Events(Forward(Init(src))) + Missing(BookAfter(Init(src)), Last(src)) + [Last(src)]
  {
    EventsAppend(Forward(Init(src)), Missing(BookAfter(Init(src)), Last(src)), Last(src));
  }

  // ---------- The bridge object ----------

  class StreamBridge {
    const rewriteId: Option<string>
    var itemsById: map<string, Item>
    var itemOrder: seq<string>
    var finalResponse: Fields
    var announcedItems: set<string>
    var announcedParts: set<(string, int)>
    ghost var seen: seq<Event>   // the source so far, ids rewritten
    ghost var sent: seq<Event>   // everything forwarded so far

    constructor (rewriteId: Option<string>)
      ensures this.rewriteId == rewriteId && seen == [] && sent == [] && Valid()
    {
      this.rewriteId := rewriteId;
      itemsById, itemOrder := map[], [];
      finalResponse := map["output" := Arr([]), "usage" := Obj(map[])];
      announcedItems, announcedParts := {}, {};
      seen, sent := [], [];
    }

    ghost function TheBook(): Book
      reads this
    {
      Book(announcedItems, announcedParts)
    }

    ghost function TheAcc(): Acc
      reads this
    {
      Acc(itemsById, itemOrder, finalResponse)
    }

    ghost predicate Valid()
      reads this
    {
      TheBook() == BookAfter(seen) && sent == Events(Forward(seen)) && TheAcc() == Accumulate(sent)
    }

    /** Forwards the source, inserting what is missing, and folds everything forwarded into the buffers. */
    method Tee(source: seq<Event>) returns (forwarded: seq<Event>)
      requires Valid()
      modifies this
      ensures Valid() && seen == old(seen) + RewriteAll(rewriteId, source)
      ensures sent == old(sent) + forwarded
    {
      forwarded := [];
      ghost var prefix := [];
      for i := 0 to |source|
        invariant Valid() && sent == old(sent) + forwarded
        invariant prefix == RewriteAll(rewriteId, source[..i]) && seen == old(seen) + prefix
      {
        var step := TeeOne(source[i]);
        AppendAssociative(old(sent), forwarded, step);
        AppendAssociative(old(seen), prefix, [Rewrite(rewriteId, source[i])]);
        RewriteAllStep(rewriteId, source, i);
        forwarded := forwarded + step;
        prefix := prefix + [Rewrite(rewriteId, source[i])];
      }
      assert source[..|source|] == source;
    }

    /** The body of `tee`'s loop: rewrite, announce what is missing, then forward the event itself. */
    method TeeOne(sourceEvent: Event) returns (forwarded: seq<Event>)
      requires Valid()
      modifies this
      ensures Valid() && seen == old(seen) + [Rewrite(rewriteId, sourceEvent)]
      ensures sent == old(sent) + forwarded
    {
      var event := MaybeRewriteId(sourceEvent);
      ForwardStep(seen, event);
      seen := seen + [event];
      var synthetics := SynthesizeMissingAnnouncements(event);
      AppendAssociative(sent, synthetics, [event]);
      forwarded := synthetics + [event];
      YieldAll(forwarded);
    }

    /** One `_consume` and one `yield` for each event. */
    method YieldAll(events: seq<Event>)
      requires TheAcc() == Accumulate(sent)
      modifies this`itemsById, this`itemOrder, this`finalResponse, this`sent
      ensures TheAcc() == Accumulate(sent) && sent == old(sent) + events
    {
      for k := 0 to |events|
        invariant TheAcc() == Accumulate(sent) && sent == old(sent) + events[..k]
      {
        TakeOneMore(events, k);
        AppendAssociative(old(sent), events[..k], [events[k]]);
        Yield(events[k]);
      }
      assert events[..|events|] == events;
    }

    method Yield(event: Event)
      requires TheAcc() == Accumulate(sent)
      modifies this`itemsById, this`itemOrder, this`finalResponse, this`sent
      ensures TheAcc() == Accumulate(sent) && sent == old(sent) + [event]
    {
      AccumulateAppend(sent, event);
      ConsumeEvent(event);
      sent := sent + [event];
    }

    method MaybeRewriteId(event: Event) returns (r: Event)
      ensures r == Rewrite(rewriteId, event)
    {
      r := event;
      if rewriteId.None? || rewriteId.value == "" {
        return;
      }
      if Lifecycle(event.kind) && event.response.Some? {
        r := event.(response := Some(event.response.value["id" := Str(rewriteId.value)]));
      }
    }

    method SynthesizeMissingAnnouncements(event: Event) returns (synth: seq<Event>)
      modifies this`announcedItems, this`announcedParts
      ensures synth == Missing(old(TheBook()), event)
      ensures TheBook() == Noted(old(TheBook()), event)
    {
      synth := [];
      if event.kind.ItemAdded? {
        if Real(event.item.id) {
          announcedItems := announcedItems + {event.item.id.value};
        }
        return;
      }
      if event.kind.PartAdded? {
        if Real(event.itemId) {
          announcedParts := announcedParts + {(event.itemId.value, event.contentIndex)};
        }
      } else if !MessageKind(event.kind) {
        return;
      }
      if event.itemId.None? {
        return;
      }
      var itemId := event.itemId.value;
      if itemId !in announcedItems {
        synth := synth + [ItemNotice(itemId, event.outputIndex)];
        announcedItems := announcedItems + {itemId};
      }
      if TextKind(event.kind) {
        var key := (itemId, event.contentIndex);
        if key !in announcedParts {
          synth := synth + [PartNotice(itemId, event.contentIndex, event.outputIndex)];
          announcedParts := announcedParts + {key};
        }
      }
    }

    method ConsumeEvent(event: Event)
      modifies this`itemsById, this`itemOrder, this`finalResponse
      ensures TheAcc() == Consume(old(TheAcc()), event)
    {
      match event.kind {
        case Created =>
          if event.response.Some? {
            finalResponse := finalResponse + event.response.value;
          }
          if "output" !in finalResponse {
            finalResponse := finalResponse["output" := Arr([])];
          }
          if "usage" !in finalResponse {
            finalResponse := finalResponse["usage" := Obj(map[])];
          }
        case ItemAdded =>
          if Real(event.item.id) {
            itemsById := itemsById[event.item.id.value := event.item];
            itemOrder := itemOrder + [event.item.id.value];
          }
        case TextDelta =>
          var m := LatestItemOfType("message");
          if m.Some? {
            itemsById := itemsById[m.value := AddText(itemsById[m.value], event.delta)];
          }
        case ArgsDelta =>
          if Real(event.itemId) && event.itemId.value in itemsById {
            var item := itemsById[event.itemId.value];
            itemsById := itemsById[event.itemId.value := item.(arguments := Some(ArgText(item) + event.delta))];
          }
        case ItemDone =>
          if Real(event.item.id) {
            itemsById := itemsById[event.item.id.value := event.item];
          }
        case Completed =>
          var usage := if event.response.Some? then Get(event.response.value, "usage") else Null;
          if Truthy(usage) {
            finalResponse := finalResponse["usage" := usage];
          }
        case _ =>
      }
    }

    method LatestItemOfType(itemType: string) returns (id: Option<string>)
      ensures id == Latest(itemOrder, itemsById, itemType)
    {
      var i := |itemOrder|;
      assert itemOrder[..i] == itemOrder;
      while i > 0
        invariant 0 <= i <= |itemOrder|
        invariant Latest(itemOrder, itemsById, itemType) == Latest(itemOrder[..i], itemsById, itemType)
      {
        var iid := itemOrder[i - 1];
        assert Init(itemOrder[..i]) == itemOrder[..i - 1];
        if iid in itemsById && itemsById[iid].itype == Some(itemType) {
          return Some(iid);
        }
        i := i - 1;
      }
      return None;
    }

    /** What a non-streaming call would have returned, as far as the stream told. */
    method FinalState() returns (final: Final)
      requires Valid()
      ensures Covered(TheAcc()) && final == Final(finalResponse, Output(TheAcc()))
    {
      OrderIsCovered(sent);
      var output := [];
      for k := 0 to |itemOrder|
        invariant |output| == k
        invariant forall j :: 0 <= j < k ==> output[j] == itemsById[itemOrder[j]]
      {
        output := output + [itemsById[itemOrder[k]]];
      }
      assert output == Output(TheAcc());
      final := Final(finalResponse, output);
    }
  }
}
