/** Text deltas land on the latest announced message: what text each item ends up with. */
module StreamText {
  import opened JsonValues
  import opened Streaming
  import opened StreamFold

  // ---------- Text of parts, items and the whole output ----------

  function PartsText(parts: seq<Part>): string {
    if parts == [] then ""
    else PartsText(Init(parts)) + if Last(parts).ptype == "output_text" then Last(parts).text else ""
  }

  function TextOf(item: Item): string {
    if item.content.Some? then PartsText(item.content.value) else ""
  }

  predicate IsMessage(items: map<string, Item>, id: string) {
    id in items && items[id].itype == Some("message")
  }

  /** The text that an item shows in the output: none unless it is a message. */
  function Shown(item: Item): string {
    if item.itype == Some("message") then TextOf(item) else ""
  }

  /** The text of all message items, in output order. */
  function OutputText(order: seq<string>, items: map<string, Item>): string {
    if order == [] then ""
    else OutputText(Init(order), items) + if Last(order) in items then Shown(items[Last(order)]) else ""
  }

  /** All text deltas of a trace, joined. */
  function Deltas(trace: seq<Event>): string {
    if trace == [] then ""
    else Deltas(Init(trace)) + if Last(trace).kind.TextDelta? then Last(trace).delta else ""
  }

  /** Dropping the last part off, then putting it back with more text, adds that text. */
  lemma {:induction false} LastPartGrows(parts: seq<Part>, delta: string)
    requires parts != [] && Last(parts).ptype == "output_text"
    ensures PartsText(Init(parts) + [Last(parts).(text := Last(parts).text + delta)]) == PartsText(parts) + delta
  {
  }

  lemma {:induction false} AddTextAppends(item: Item, delta: string)
    ensures TextOf(AddText(item, delta)) == TextOf(item) + delta
  {
    var content := if item.content.Some? then item.content.value else [];
    if content == [] || Last(content).ptype != "output_text" {
      var open := content + [Part("output_text", "", map[])];
      assert Init(open) == content;
      assert PartsText(open) == PartsText(content) + "";
      LastPartGrows(open, delta);
    } else {
      LastPartGrows(content, delta);
    }
  }

  lemma {:induction false} OutputTextFrame(order: seq<string>, items: map<string, Item>, items': map<string, Item>)
    requires forall id :: id in order ==> id in items && id in items' && items[id] == items'[id]
    ensures OutputText(order, items) == OutputText(order, items')
  {
    if order != [] {
      OutputTextFrame(Init(order), items, items');
    }
  }

  /** How often the id stands in the order. */
  function Times(order: seq<string>, id: string): nat {
    if order == [] then 0 else Times(Init(order), id) + if Last(order) == id then 1 else 0
  }

  lemma {:induction false} TimesPositive(order: seq<string>, id: string)
    ensures Times(order, id) > 0 <==> id in order
  {
    if order != [] {
      TimesPositive(Init(order), id);
      assert order == Init(order) + [Last(order)];
    }
  }

  lemma {:induction false} TimesOnce(order: seq<string>, id: string)
    requires Distinct(order) && id in order
    ensures Times(order, id) == 1
  {
    var rest := Init(order);
    assert order == rest + [Last(order)];
    if Last(order) == id {
      TimesPositive(rest, id);
      assert forall k :: 0 <= k < |rest| ==> order[k] != order[|rest|];
    } else {
      TimesOnce(rest, id);
    }
  }

  /** Text added to the latest message, if that stands once, is text added at the end of the output. */
  lemma {:induction false} LandedText(order: seq<string>, items: map<string, Item>, m: string, item: Item, delta: string)
    requires Times(order, m) == 1 && Latest(order, items, "message") == Some(m)
    requires forall id :: id in order ==> id in items
    requires Shown(item) == Shown(items[m]) + delta
    ensures OutputText(order, items[m := item]) == OutputText(order, items) + delta
  {
    var rest := Init(order);
    assert forall id :: id in rest ==> id in order;
    if Last(order) == m {
      TimesPositive(rest, m);
      LandedHere(rest, items, m, item, delta);
    } else {
      LandedText(rest, items, m, item, delta);
      NotShown(order, items);
      NotShown(order, items[m := item]);
    }
  }

  lemma {:induction false} NotShown(order: seq<string>, items: map<string, Item>)
    requires order != [] && Last(order) in items && items[Last(order)].itype != Some("message")
    ensures OutputText(order, items) == OutputText(Init(order), items)
  {
    assert OutputText(order, items) == OutputText(Init(order), items) + "";
  }

  lemma {:induction false} LandedHere(rest: seq<string>, items: map<string, Item>, m: string, item: Item, delta: string)
    requires m in items && m !in rest && forall id :: id in rest ==> id in items
    requires Shown(item) == Shown(items[m]) + delta
    ensures OutputText(rest, items[m := item]) + Shown(item) == OutputText(rest, items) + Shown(items[m]) + delta
  {
    OutputTextFrame(rest, items, items[m := item]);
    AppendAssociative(OutputText(rest, items), Shown(items[m]), delta);
  }

  lemma {:induction false} NoMessageNoText(order: seq<string>, items: map<string, Item>)
    requires Latest(order, items, "message") == None
    ensures OutputText(order, items) == ""
  {
    if order != [] {
      NoMessageNoText(Init(order), items);
    }
  }

  /** A text delta always lands on the latest announced message, whichever item it names. */
  lemma {:induction false} DeltaLandsOnLatest(a: Acc, e: Event, m: string)
    requires e.kind.TextDelta? && Latest(a.order, a.items, "message") == Some(m)
    ensures m in a.items && Consume(a, e) == a.(items := Consume(a, e).items)
    ensures Consume(a, e).items == a.items[m := Consume(a, e).items[m]]
    ensures TextOf(Consume(a, e).items[m]) == TextOf(a.items[m]) + e.delta
  {
    var item := AddText(a.items[m], e.delta);
    assert Consume(a, e) == a.(items := a.items[m := item]);
    AddTextAppends(a.items[m], e.delta);
  }

  // ---------- The text of one item ----------

  /** The message that a text delta after `t` lands on. */
  function LatestMessage(t: seq<Event>): Option<string> {
    Latest(Accumulate(t).order, Accumulate(t).items, "message")
  }

  /** The text that `e` puts on the item when it comes after `t`. */
  function LandsOn(t: seq<Event>, e: Event, id: string): string {
    if e.kind.TextDelta? && LatestMessage(t) == Some(id) then e.delta else ""
  }

  /** The deltas after the first `k` events that came while the item was the latest message. */
  function Landed(t: seq<Event>, k: nat, id: string): string {
    if |t| <= k then "" else Landed(Init(t), k, id) + LandsOn(Init(t), Last(t), id)
  }

  lemma {:induction false} ConsumeItemText(t: seq<Event>, e: Event, id: string)
    requires id in Accumulate(t).items && !Sets(e, id)
    ensures id in Consume(Accumulate(t), e).items
    ensures TextOf(Consume(Accumulate(t), e).items[id]) == TextOf(Accumulate(t).items[id]) + LandsOn(t, e, id)
  {
    var a := Accumulate(t);
    if e.kind.TextDelta? {
      if LatestMessage(t).Some? {
        DeltaLandsOnLatest(a, e, LatestMessage(t).value);
      }
    } else if e.kind.ArgsDelta? {
      assert id in Consume(a, e).items && Consume(a, e).items[id].content == a.items[id].content;
    } else {
      assert id in Consume(a, e).items && Consume(a, e).items[id] == a.items[id];
    }
  }

  /** An item's text is that of the last event that set it, then exactly the deltas that came while it was the latest
      message, whatever item those name and whether or not it was done. */
  lemma {:induction false} TextIsBaseAndLandedDeltas(t: seq<Event>, id: string, k: nat)
    requires k < |t| && Sets(t[k], id) && forall j :: k < j < |t| ==> !Sets(t[j], id)
    ensures id in Accumulate(t).items
    ensures TextOf(Accumulate(t).items[id]) == TextOf(t[k].item) + Landed(t, k + 1, id)
  {
    if k + 1 < |t| {
      var rest, e := Init(t), Last(t);
      TextIsBaseAndLandedDeltas(rest, id, k);
      ConsumeItemText(rest, e, id);
      AppendAssociative(TextOf(t[k].item), Landed(rest, k + 1, id), LandsOn(rest, e, id));
    }
  }

  /** The deltas after the first `k` events that name the item. */
  function OwnDeltas(t: seq<Event>, k: nat, id: string): string {
    if |t| <= k then ""
    else OwnDeltas(Init(t), k, id) + if Last(t).kind.TextDelta? && Last(t).itemId == Some(id) then Last(t).delta else ""
  }

  /** The delta `e` after `t` lands on the item exactly if it names it. */
  predicate LandsAsNamed(t: seq<Event>, e: Event, id: string) {
    e.kind.TextDelta? && e.delta != "" ==> (e.itemId == Some(id) <==> LatestMessage(t) == Some(id))
  }

  lemma {:induction false} LandedStep(t: seq<Event>, k: nat, n: nat, id: string)
    requires k <= n < |t|
    ensures Landed(t[..n + 1], k, id) == Landed(t[..n], k, id) + LandsOn(t[..n], t[n], id)
    ensures OwnDeltas(t[..n + 1], k, id) ==
            OwnDeltas(t[..n], k, id) + if t[n].kind.TextDelta? && t[n].itemId == Some(id) then t[n].delta else ""
  {
    assert Init(t[..n + 1]) == t[..n] && Last(t[..n + 1]) == t[n];
  }

  predicate OwnSoFar(t: seq<Event>, k: nat, n: nat, id: string)
    requires n <= |t|
  {
    Landed(t[..n], k, id) == OwnDeltas(t[..n], k, id)
  }

  lemma {:induction false} LandedAreOwn(t: seq<Event>, k: nat, n: nat, id: string)
    requires k <= n <= |t| && forall j :: k <= j < n ==> LandsAsNamed(t[..j], t[j], id)
    ensures OwnSoFar(t, k, n, id)
  {
    if k < n {
      LandedAreOwn(t, k, n - 1, id);
      LandedStep(t, k, n - 1, id);
    }
  }

  /** A delta that lands on the item without naming it, or names it and lands elsewhere, shows before or after it. */
  lemma {:induction false} StrayDeltaShows(t: seq<Event>, k: nat, j: nat, id: string)
    requires k <= j < |t| && OwnSoFar(t, k, j, id) && OwnSoFar(t, k, j + 1, id)
    ensures LandsAsNamed(t[..j], t[j], id)
  {
    LandedStep(t, k, j, id);
    var own := if t[j].kind.TextDelta? && t[j].itemId == Some(id) then t[j].delta else "";
    SameRest(Landed(t[..j], k, id), LandsOn(t[..j], t[j], id), own);
  }

  /** The item shows, after the first `n` events, the text it was set with at `k` and then its own deltas. */
  predicate TextIsOwn(t: seq<Event>, k: nat, n: nat, id: string)
    requires k < n <= |t|
  {
    && id in Accumulate(t[..n]).items
    && TextOf(Accumulate(t[..n]).items[id]) == TextOf(t[k].item) + OwnDeltas(t[..n], k + 1, id)
  }

  lemma {:induction false} TextIsOwnIffLanded(t: seq<Event>, k: nat, n: nat, id: string)
    requires k < n <= |t| && Sets(t[k], id) && forall j :: k < j < |t| ==> !Sets(t[j], id)
    ensures TextIsOwn(t, k, n, id) <==> OwnSoFar(t, k + 1, n, id)
  {
    TextIsBaseAndLandedDeltas(t[..n], id, k);
    SameRest(TextOf(t[k].item), Landed(t[..n], k + 1, id), OwnDeltas(t[..n], k + 1, id));
  }

  lemma {:induction false} SameRest(base: string, a: string, b: string)
    ensures base + a == base + b <==> a == b
  {
    assert (base + a)[|base|..] == a && (base + b)[|base|..] == b;
  }

  /** As long as nothing sets it again, an item has at all times exactly its own deltas behind the text it was set with,
      if and only if each delta lands on it when it names it, and only then. */
  lemma {:induction false} TextIsOwnIff(t: seq<Event>, id: string, k: nat)
    requires k < |t| && Sets(t[k], id) && forall j :: k < j < |t| ==> !Sets(t[j], id)
    ensures (forall n :: k < n <= |t| ==> TextIsOwn(t, k, n, id)) <==> (forall j :: k < j < |t| ==> LandsAsNamed(t[..j], t[j], id))
  {
    var later := k + 1;
    OwnSoFarIff(t, later, id);
    if forall n :: k < n <= |t| ==> TextIsOwn(t, k, n, id) {
      forall n | later <= n <= |t| ensures OwnSoFar(t, later, n, id) {
        assert TextIsOwn(t, k, n, id);
        TextIsOwnIffLanded(t, k, n, id);
      }
    } else {
      var n :| k < n <= |t| && !TextIsOwn(t, k, n, id);
      TextIsOwnIffLanded(t, k, n, id);
      assert !OwnSoFar(t, later, n, id);
    }
  }

  lemma {:induction false} OwnSoFarIff(t: seq<Event>, k: nat, id: string)
    requires k <= |t|
    ensures (forall n :: k <= n <= |t| ==> OwnSoFar(t, k, n, id)) <==> (forall j :: k <= j < |t| ==> LandsAsNamed(t[..j], t[j], id))
  {
    if forall j :: k <= j < |t| ==> LandsAsNamed(t[..j], t[j], id) {
      forall n | k <= n <= |t| ensures OwnSoFar(t, k, n, id) {
        LandedAreOwn(t, k, n, id);
      }
    } else {
      var j :| k <= j < |t| && !LandsAsNamed(t[..j], t[j], id);
      if OwnSoFar(t, k, j, id) && OwnSoFar(t, k, j + 1, id) {
        StrayDeltaShows(t, k, j, id);
      }
    }
  }

  // ---------- Which message is the latest ----------

  /** The last event that set the item made it a message. */
  predicate SetAsMessage(t: seq<Event>, id: string) {
    t != [] && if Sets(Last(t), id) then Last(t).item.itype == Some("message") else SetAsMessage(Init(t), id)
  }

  lemma {:induction false} SetAsMessageIsMessage(t: seq<Event>, id: string)
    ensures IsMessage(Accumulate(t).items, id) <==> SetAsMessage(t, id)
  {
    if t != [] {
      SetAsMessageIsMessage(Init(t), id);
    }
  }

  lemma {:induction false} LatestIs(order: seq<string>, items: map<string, Item>, m: string)
    ensures Latest(order, items, "message") == Some(m) <==>
            exists i :: 0 <= i < |order| && order[i] == m && IsMessage(items, m)
                        && forall j :: i < j < |order| ==> !IsMessage(items, order[j])
  {
    if order != [] {
      var rest := Init(order);
      LatestIs(rest, items, m);
      assert order[|rest|] == Last(order) && forall i :: 0 <= i < |rest| ==> order[i] == rest[i];
    }
  }

  /** In terms of the events: the last announced id whose item was last set as a message. */
  lemma {:induction false} LatestMessageIs(t: seq<Event>, m: string)
    ensures LatestMessage(t) == Some(m) <==>
            exists i :: 0 <= i < |Announced(t)| && Announced(t)[i] == m && SetAsMessage(t, m)
                        && forall j :: i < j < |Announced(t)| ==> !SetAsMessage(t, Announced(t)[j])
  {
    var a := Accumulate(t);
    OutputFollowsAnnouncements(t);
    LatestIs(a.order, a.items, m);
    forall id ensures IsMessage(a.items, id) <==> SetAsMessage(t, id) {
      SetAsMessageIsMessage(t, id);
    }
  }

  lemma {:induction false} SomeLatest(order: seq<string>, items: map<string, Item>, i: nat)
    requires i < |order| && IsMessage(items, order[i])
    ensures Latest(order, items, "message").Some?
  {
    if i < |Init(order)| {
      SomeLatest(Init(order), items, i);
    }
  }

  // ---------- A late delta ----------

  lemma {:induction false} DoneIsLatest(added: Event, done: Event)
    requires added.kind.ItemAdded? && added.item.itype == Some("message") && Real(added.item.id)
    requires done.kind.ItemDone? && done.item.id == added.item.id && done.item.itype == Some("message")
    ensures var a, id := Accumulate([added, done]), added.item.id.value;
            Latest(a.order, a.items, "message") == Some(id) && a.items[id] == done.item
  {
    var id := added.item.id.value;
    assert Init([added, done]) == [added] && Init([added]) == [];
    var a := Accumulate([added, done]);
    OutputFollowsAnnouncements([added, done]);
    assert Announced([added]) == [] + [id];
    assert Announced([added, done]) == [id] + [];
    assert Last(a.order) == id;
  }

  /** A late delta: it grows the message that its done event had already completed, even when it names another. */
  lemma {:induction false} LateDeltaGrowsDoneItem(added: Event, done: Event, delta: Event)
    requires added.kind.ItemAdded? && added.item.itype == Some("message") && Real(added.item.id)
    requires done.kind.ItemDone? && done.item.id == added.item.id && done.item.itype == Some("message")
    requires delta.kind.TextDelta? && delta.delta != ""
    ensures var a, id := Accumulate([added, done, delta]), added.item.id.value;
            && id in a.items && a.items[id] != done.item
            && TextOf(a.items[id]) == TextOf(done.item) + delta.delta
  {
    var t, id := [added, done, delta], added.item.id.value;
    assert Init(t) == [added, done];
    DoneIsLatest(added, done);
    assert Accumulate(t) == Consume(Accumulate([added, done]), delta);
    DeltaLandsOnLatest(Accumulate([added, done]), delta, id);
    assert |TextOf(done.item) + delta.delta| > |TextOf(done.item)|;
  }
}
