/** What each accumulated item is, field by field, after any stream. */
module StreamItems {
  import opened JsonValues
  import opened Streaming
  import opened StreamFold
  import opened StreamText

  // ---------- One text delta ----------

  /** The content with more text: on the last part when that is an output_text, else on a new one. */
  function Grown(content: Option<seq<Part>>, text: string): seq<Part> {
    if content.Some? && content.value != [] && Last(content.value).ptype == "output_text" then
      var last := Last(content.value);
      Init(content.value) + [Part("output_text", last.text + text, last.extra)]
    else
      (if content.Some? then content.value else []) + [Part("output_text", text, map[])]
  }

  lemma {:induction false} AddTextGrows(item: Item, delta: string)
    ensures AddText(item, delta) == item.(content := Some(Grown(item.content, delta)))
  {
    var content := if item.content.Some? then item.content.value else [];
    if content == [] || Last(content).ptype != "output_text" {
      var open := content + [Part("output_text", "", map[])];
      assert Init(open) == content && Last(open).text + delta == delta;
    }
  }

  /** A text delta extends the text of the latest message's last part, or opens one output_text part with it; every other
      part, field and item stays. */
  lemma {:induction false} DeltaExtendsLastPart(a: Acc, e: Event, m: string)
    requires e.kind.TextDelta? && Latest(a.order, a.items, "message") == Some(m)
    ensures m in a.items && Consume(a, e) == a.(items := Consume(a, e).items)
    ensures Consume(a, e).items == a.items[m := Consume(a, e).items[m]]
    ensures var old', now := a.items[m], Consume(a, e).items[m];
            && now == old'.(content := now.content) && now.content.Some?
            && var before, after := if old'.content.Some? then old'.content.value else [], now.content.value;
            if before != [] && Last(before).ptype == "output_text"
            then |after| == |before| && Init(after) == Init(before)
                 && Last(after) == Last(before).(text := Last(before).text + e.delta)
            else |after| == |before| + 1 && Init(after) == before && Last(after) == Part("output_text", e.delta, map[])
  {
    AddTextGrows(a.items[m], e.delta);
    assert Consume(a, e) == a.(items := a.items[m := AddText(a.items[m], e.delta)]);
  }

  // ---------- A whole stream ----------

  /** Text of one delta after another is text of both at once. */
  lemma {:induction false} GrownTwice(content: Option<seq<Part>>, a: string, b: string)
    ensures Grown(Some(Grown(content, a)), b) == Grown(content, a + b)
  {
    var once := Grown(content, a);
    var before := if content.Some? then content.value else [];
    if before != [] && Last(before).ptype == "output_text" {
      assert Init(once) == Init(before) && Last(once).text == Last(before).text + a;
      AppendAssociative(Last(before).text, a, b);
    } else {
      assert Init(once) == before && Last(once) == Part("output_text", a, map[]);
    }
  }

  /** Some text delta after the first `k` events came while the item was the latest message. */
  predicate AnyLanded(t: seq<Event>, k: nat, id: string) {
    |t| > k && (AnyLanded(Init(t), k, id) || (Last(t).kind == TextDelta && LatestMessage(Init(t)) == Some(id)))
  }

  /** Some argument delta after the first `k` events names the item. */
  predicate AnyArgs(t: seq<Event>, k: nat, id: string) {
    |t| > k && (AnyArgs(Init(t), k, id) || (Last(t).kind == ArgsDelta && Last(t).itemId == Some(id)))
  }

  /** The argument deltas after the first `k` events that name the item, joined. */
  function OwnArgs(t: seq<Event>, k: nat, id: string): string {
    if |t| <= k then ""
    else OwnArgs(Init(t), k, id) + if Last(t).kind == ArgsDelta && Last(t).itemId == Some(id) then Last(t).delta else ""
  }

  /** `now` is `base` with the text that landed and the arguments that came for it. */
  predicate Built(base: Item, now: Item, anyText: bool, text: string, anyArgs: bool, args: string) {
    now == base.(content := if anyText then Some(Grown(base.content, text)) else base.content,
                 arguments := if anyArgs then Some((if base.arguments.Some? then base.arguments.value else "") + args)
                              else base.arguments)
  }

  lemma {:induction false} TextStep(base: Item, now: Item, anyText: bool, text: string, anyArgs: bool, args: string, delta: string)
    requires Built(base, now, anyText, text, anyArgs, args) && (!anyText ==> text == "")
    ensures Built(base, now.(content := Some(Grown(now.content, delta))), true, text + delta, anyArgs, args)
  {
    if anyText {
      GrownTwice(base.content, text, delta);
    } else {
      assert "" + delta == delta;
    }
  }

  lemma {:induction false} ArgsStep(base: Item, now: Item, anyText: bool, text: string, anyArgs: bool, args: string, delta: string)
    requires Built(base, now, anyText, text, anyArgs, args) && (!anyArgs ==> args == "")
    ensures var had := if now.arguments.Some? then now.arguments.value else "";
            Built(base, now.(arguments := Some(had + delta)), anyText, text, true, args + delta)
  {
    var start := if base.arguments.Some? then base.arguments.value else "";
    AppendAssociative(start, args, delta);
    assert start + "" == start && "" + delta == delta;
  }

  lemma {:induction false} NoneLanded(t: seq<Event>, k: nat, id: string)
    ensures !AnyLanded(t, k, id) ==> Landed(t, k, id) == ""
    ensures !AnyArgs(t, k, id) ==> OwnArgs(t, k, id) == ""
  {
    if |t| > k {
      NoneLanded(Init(t), k, id);
    }
  }

  /** How one event that does not set the item changes it. */
  lemma {:induction false} ConsumeItem(t: seq<Event>, e: Event, id: string)
    requires id in Accumulate(t).items && id != "" && !Sets(e, id)
    ensures id in Consume(Accumulate(t), e).items
    ensures var old', now := Accumulate(t).items[id], Consume(Accumulate(t), e).items[id];
            now == if e.kind.TextDelta? && LatestMessage(t) == Some(id) then old'.(content := Some(Grown(old'.content, e.delta)))
                   else if e.kind.ArgsDelta? && e.itemId == Some(id)
                     then old'.(arguments := Some((if old'.arguments.Some? then old'.arguments.value else "") + e.delta))
                   else old'
  {
    if e.kind.TextDelta? && LatestMessage(t).Some? {
      AddTextGrows(Accumulate(t).items[LatestMessage(t).value], e.delta);
    }
  }

  /** After any stream an item is what the last event that set it said, with the text that landed on it since in one
      part, and with its own later argument deltas behind its arguments. */
  lemma {:induction false} ItemIsBuilt(t: seq<Event>, id: string, k: nat)
    requires k < |t| && Sets(t[k], id) && forall j :: k < j < |t| ==> !Sets(t[j], id)
    ensures id in Accumulate(t).items
    ensures Built(t[k].item, Accumulate(t).items[id], AnyLanded(t, k + 1, id), Landed(t, k + 1, id),
                  AnyArgs(t, k + 1, id), OwnArgs(t, k + 1, id))
  {
    var later := k + 1;
    if later == |t| {
      assert Last(t) == t[k];
    } else {
      var rest, e := Init(t), Last(t);
      ItemIsBuilt(rest, id, k);
      ConsumeItem(rest, e, id);
      NoneLanded(rest, later, id);
      BuiltStep(t, id, later, t[k].item);
    }
  }

  lemma {:induction false} BuiltStep(t: seq<Event>, id: string, later: nat, base: Item)
    requires later < |t| && id != "" && !Sets(Last(t), id) && id in Accumulate(Init(t)).items && id in Accumulate(t).items
    requires Built(base, Accumulate(Init(t)).items[id], AnyLanded(Init(t), later, id), Landed(Init(t), later, id),
                   AnyArgs(Init(t), later, id), OwnArgs(Init(t), later, id))
    ensures Built(base, Accumulate(t).items[id], AnyLanded(t, later, id), Landed(t, later, id), AnyArgs(t, later, id),
                  OwnArgs(t, later, id))
  {
    var rest, e := Init(t), Last(t);
    var now := Accumulate(rest).items[id];
    var anyText, text, anyArgs, args := AnyLanded(rest, later, id), Landed(rest, later, id), AnyArgs(rest, later, id), OwnArgs(rest, later, id);
    ConsumeItem(rest, e, id);
    NoneLanded(rest, later, id);
    assert text + "" == text && args + "" == args;
    if e.kind.TextDelta? && LatestMessage(rest) == Some(id) {
      TextStep(base, now, anyText, text, anyArgs, args, e.delta);
    } else if e.kind.ArgsDelta? && e.itemId == Some(id) {
      ArgsStep(base, now, anyText, text, anyArgs, args, e.delta);
    }
  }

  /** A message announced empty, and never set again, holds all text that landed on it in one part. */
  lemma {:induction false} DeltasMakeOnePart(t: seq<Event>, id: string, k: nat)
    requires k < |t| && Sets(t[k], id) && forall j :: k < j < |t| ==> !Sets(t[j], id)
    requires t[k].item.content == Some([]) && AnyLanded(t, k + 1, id)
    ensures id in Accumulate(t).items
    ensures Accumulate(t).items[id].content == Some([Part("output_text", Landed(t, k + 1, id), map[])])
  {
    ItemIsBuilt(t, id, k);
    var none: seq<Part> := [];
    var only := Part("output_text", Landed(t, k + 1, id), map[]);
    assert none + [only] == [only] && Grown(Some(none), only.text) == [only];
  }
}
