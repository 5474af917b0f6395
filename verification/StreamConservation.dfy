/** Conservation of text: when every text delta of a stream ends up in the recorded output, in arrival order. */
module StreamConservation {
  import opened JsonValues
  import opened Streaming
  import opened StreamRepair
  import opened StreamFold
  import opened StreamSpelling
  import opened StreamText

  /** The text of the output that `t` would be recorded with. */
  function TextNow(t: seq<Event>): string {
    OutputText(Accumulate(t).order, Accumulate(t).items)
  }

  function DeltaOf(e: Event): string {
    if e.kind.TextDelta? then e.delta else ""
  }

  /** Messages are announced without text. */
  predicate PlainAnnouncements(t: seq<Event>) {
    forall k :: 0 <= k < |t| && Announces(t[k]) ==> Shown(t[k].item) == ""
  }

  /** A done event leaves the item it replaces the text that this shows. */
  predicate Confirms(t: seq<Event>, e: Event) {
    e.kind.ItemDone? && Real(e.item.id) && e.item.id.value in Accumulate(t).order && e.item.id.value in Accumulate(t).items ==>
      Shown(e.item) == Shown(Accumulate(t).items[e.item.id.value])
  }

  /** A repeated announcement finds no text to reset. */
  predicate ResetsNothing(t: seq<Event>, e: Event) {
    Announces(e) && e.item.id.value in Accumulate(t).order && e.item.id.value in Accumulate(t).items ==>
      Shown(Accumulate(t).items[e.item.id.value]) == ""
  }

  /** The message that a delta with text lands on was announced once, so the output shows it once. */
  predicate LandsOnce(t: seq<Event>, e: Event) {
    DeltaOf(e) != "" && LatestMessage(t).Some? ==> Times(Announced(t), LatestMessage(t).value) == 1
  }

  predicate Steady(t: seq<Event>, e: Event) {
    Confirms(t, e) && ResetsNothing(t, e) && LandsOnce(t, e)
  }

  /** A delta with text finds a message to land on. */
  predicate Lands(t: seq<Event>, e: Event) {
    DeltaOf(e) != "" ==> LatestMessage(t).Some?
  }

  // ---------- One event ----------

  lemma {:induction false} SameEnds(a: string, b: string, c: string, d: string)
    ensures a + c == a + d <==> c == d
    ensures |a| == |b| ==> (a + c == b + d <==> a == b && c == d)
  {
    assert (a + c)[|a|..] == c && (a + d)[|a|..] == d;
    assert (a + c)[..|a|] == a && (b + d)[..|b|] == b && (b + d)[|b|..] == d;
  }

  lemma {:induction false} SameShown(order: seq<string>, items: map<string, Item>, id: string, item: Item)
    requires id in items && Shown(item) == Shown(items[id])
    ensures OutputText(order, items[id := item]) == OutputText(order, items)
  {
    if order != [] {
      SameShown(Init(order), items, id, item);
    }
  }

  /** `gain` once for each time that the id stands in the order. */
  function Grown(order: seq<string>, id: string, gain: int): int {
    if order == [] then 0 else Grown(Init(order), id, gain) + if Last(order) == id then gain else 0
  }

  lemma {:induction false} GrownFacts(order: seq<string>, id: string, gain: int)
    ensures gain == 0 || Times(order, id) == 0 ==> Grown(order, id, gain) == 0
    ensures gain > 0 ==> Grown(order, id, gain) >= 0
    ensures gain < 0 ==> Grown(order, id, gain) <= 0
    ensures gain > 0 && Times(order, id) >= 1 ==> Grown(order, id, gain) >= gain
    ensures gain < 0 && Times(order, id) >= 1 ==> Grown(order, id, gain) <= gain
    ensures gain > 0 && Times(order, id) >= 2 ==> Grown(order, id, gain) >= gain + gain
  {
    if order != [] {
      GrownFacts(Init(order), id, gain);
    }
  }

  /** Replacing an item changes the length of the output once for each time that it stands there. */
  lemma {:induction false} ReplacedLength(order: seq<string>, items: map<string, Item>, id: string, item: Item)
    requires id in items && forall x :: x in order ==> x in items
    ensures |OutputText(order, items[id := item])| ==
            |OutputText(order, items)| + Grown(order, id, |Shown(item)| - |Shown(items[id])|)
  {
    if order != [] {
      var rest := Init(order);
      assert forall x :: x in rest ==> x in order;
      ReplacedLength(rest, items, id, item);
    }
  }

  /** Replacing one item keeps the text of the output exactly when the text that it shows stays. */
  lemma {:induction false} ReplacedText(order: seq<string>, items: map<string, Item>, id: string, item: Item)
    requires id in order && forall x :: x in order ==> x in items
    ensures OutputText(order, items[id := item]) == OutputText(order, items) <==> Shown(item) == Shown(items[id])
  {
    if Shown(item) == Shown(items[id]) {
      SameShown(order, items, id, item);
    } else if OutputText(order, items[id := item]) == OutputText(order, items) {
      TimesPositive(order, id);
      ReplacedLength(order, items, id, item);
      GrownFacts(order, id, |Shown(item)| - |Shown(items[id])|);
      OtherTextShows(order, items, id, item);
    }
  }

  lemma {:induction false} OtherTextShows(order: seq<string>, items: map<string, Item>, id: string, item: Item)
    requires id in order && forall x :: x in order ==> x in items
    requires |Shown(item)| == |Shown(items[id])| && Shown(item) != Shown(items[id])
    ensures OutputText(order, items[id := item]) != OutputText(order, items)
  {
    var rest, items', last := Init(order), items[id := item], Last(order);
    assert forall x :: x in rest ==> x in order;
    ReplacedLength(rest, items, id, item);
    GrownFacts(rest, id, 0);
    SameEnds(OutputText(rest, items'), OutputText(rest, items), Shown(items'[last]), Shown(items[last]));
    if last != id {
      assert id in rest;
      OtherTextShows(rest, items, id, item);
    }
  }

  /** The text after one more event. */
  function After(a: Acc, e: Event): string {
    OutputText(Consume(a, e).order, Consume(a, e).items)
  }

  lemma {:induction false} AnnouncedText(a: Acc, e: Event)
    requires Covered(a) && Announces(e) && Shown(e.item) == ""
    ensures After(a, e) == OutputText(a.order, a.items) <==>
            (e.item.id.value in a.order ==> Shown(a.items[e.item.id.value]) == "")
  {
    var id := e.item.id.value;
    assert Init(a.order + [id]) == a.order;
    assert After(a, e) == OutputText(a.order, a.items[id := e.item]) + "";
    if id in a.order {
      ReplacedText(a.order, a.items, id, e.item);
    } else {
      OutputTextFrame(a.order, a.items, a.items[id := e.item]);
    }
  }

  lemma {:induction false} LandsOnLatest(order: seq<string>, items: map<string, Item>, m: string, item: Item, delta: string)
    requires Latest(order, items, "message") == Some(m) && delta != ""
    requires forall id :: id in order ==> id in items
    requires Shown(item) == Shown(items[m]) + delta
    ensures OutputText(order, items[m := item]) == OutputText(order, items) + delta <==> Times(order, m) == 1
  {
    LatestIs(order, items, m);
    TimesPositive(order, m);
    if Times(order, m) == 1 {
      LandedText(order, items, m, item, delta);
    } else {
      ReplacedLength(order, items, m, item);
      GrownFacts(order, m, |delta|);
    }
  }

  lemma {:induction false} DeltaText(a: Acc, e: Event)
    requires Covered(a) && e.kind.TextDelta? && e.delta != ""
    ensures var m := Latest(a.order, a.items, "message");
            After(a, e) == OutputText(a.order, a.items) + e.delta <==> m.Some? && Times(a.order, m.value) == 1
  {
    var m := Latest(a.order, a.items, "message");
    if m.Some? {
      DeltaLandsOnLatest(a, e, m.value);
      assert Consume(a, e).items[m.value].itype == Some("message");
      assert Shown(Consume(a, e).items[m.value]) == Shown(a.items[m.value]) + e.delta;
      LandsOnLatest(a.order, a.items, m.value, Consume(a, e).items[m.value], e.delta);
    } else {
      assert Consume(a, e) == a;
      SameEnds(OutputText(a.order, a.items), "", e.delta, "");
      assert OutputText(a.order, a.items) + "" == OutputText(a.order, a.items);
    }
  }

  lemma {:induction false} EmptyDeltaText(a: Acc, e: Event)
    requires e.kind.TextDelta? && e.delta == ""
    ensures After(a, e) == OutputText(a.order, a.items)
  {
    var m := Latest(a.order, a.items, "message");
    if m.Some? {
      DeltaLandsOnLatest(a, e, m.value);
      SameShown(a.order, a.items, m.value, Consume(a, e).items[m.value]);
    }
  }

  lemma {:induction false} ArgsText(a: Acc, e: Event)
    requires e.kind.ArgsDelta?
    ensures After(a, e) == OutputText(a.order, a.items)
  {
    if Real(e.itemId) && e.itemId.value in a.items {
      var item := a.items[e.itemId.value];
      SameShown(a.order, a.items, e.itemId.value, item.(arguments := Some(ArgText(item) + e.delta)));
    }
  }

  lemma {:induction false} DoneText(a: Acc, e: Event)
    requires Covered(a) && e.kind.ItemDone?
    ensures After(a, e) == OutputText(a.order, a.items) <==>
            (Real(e.item.id) && e.item.id.value in a.order ==> Shown(e.item) == Shown(a.items[e.item.id.value]))
  {
    if Real(e.item.id) {
      var id := e.item.id.value;
      if id in a.order {
        ReplacedText(a.order, a.items, id, e.item);
      } else {
        OutputTextFrame(a.order, a.items, a.items[id := e.item]);
      }
    }
  }

  lemma {:induction false} OtherText(a: Acc, e: Event)
    requires !e.kind.TextDelta? && !e.kind.ItemDone? && !Announces(e) && !e.kind.ArgsDelta?
    ensures After(a, e) == OutputText(a.order, a.items)
  {
    assert Consume(a, e).order == a.order && Consume(a, e).items == a.items;
  }

  /** The same over the accumulator alone. */
  lemma {:induction false} ConsumedText(a: Acc, e: Event)
    requires Covered(a) && (Announces(e) ==> Shown(e.item) == "")
    ensures var m := Latest(a.order, a.items, "message");
            After(a, e) == OutputText(a.order, a.items) + DeltaOf(e) <==>
            && (e.kind.ItemDone? && Real(e.item.id) && e.item.id.value in a.order ==>
                  Shown(e.item) == Shown(a.items[e.item.id.value]))
            && (Announces(e) && e.item.id.value in a.order ==> Shown(a.items[e.item.id.value]) == "")
            && (DeltaOf(e) != "" ==> m.Some? && Times(a.order, m.value) == 1)
  {
    var now := OutputText(a.order, a.items);
    assert now + "" == now;
    if DeltaOf(e) != "" {
      DeltaText(a, e);
    } else if e.kind.TextDelta? {
      EmptyDeltaText(a, e);
    } else if e.kind.ItemDone? {
      DoneText(a, e);
    } else if Announces(e) {
      AnnouncedText(a, e);
    } else if e.kind.ArgsDelta? {
      ArgsText(a, e);
    } else {
      OtherText(a, e);
    }
  }

  /** One event adds its delta to the text, and nothing else, exactly when it is steady and lands. */
  lemma {:induction false} EventText(t: seq<Event>, e: Event)
    requires Announces(e) ==> Shown(e.item) == ""
    ensures TextNow(t + [e]) == TextNow(t) + DeltaOf(e) <==> Steady(t, e) && Lands(t, e)
  {
    OutputFollowsAnnouncements(t);
    AccumulateAppend(t, e);
    ConsumedText(Accumulate(t), e);
  }

  // ---------- Every event ----------

  /** After `n` events, the output shows all text so far. */
  predicate ShowsAll(t: seq<Event>, n: nat)
    requires n <= |t|
  {
    TextNow(t[..n]) == Deltas(t[..n])
  }

  /** Event `k` is steady and lands. */
  predicate Keeps(t: seq<Event>, k: nat)
    requires k < |t|
  {
    Steady(t[..k], t[k]) && Lands(t[..k], t[k])
  }

  lemma {:induction false} DeltasStep(t: seq<Event>, k: nat)
    requires k < |t|
    ensures Deltas(t[..k + 1]) == Deltas(t[..k]) + DeltaOf(t[k])
  {
    assert Init(t[..k + 1]) == t[..k] && Last(t[..k + 1]) == t[k];
  }

  lemma {:induction false} ShowsAllStep(t: seq<Event>, k: nat)
    requires PlainAnnouncements(t) && k < |t| && ShowsAll(t, k)
    ensures ShowsAll(t, k + 1) <==> Keeps(t, k)
  {
    EventText(t[..k], t[k]);
    DeltasStep(t, k);
    TakeOneMore(t, k);
  }

  lemma {:induction false} KeptIsShown(t: seq<Event>, n: nat)
    requires PlainAnnouncements(t) && n <= |t| && forall k :: 0 <= k < n ==> Keeps(t, k)
    ensures ShowsAll(t, n)
  {
    if n > 0 {
      KeptIsShown(t, n - 1);
      ShowsAllStep(t, n - 1);
    } else {
      assert t[..0] == [];
    }
  }

  /** At all times the output shows all text so far, in arrival order and under any interleaving, if and only if each
      done event confirms the text shown, each repeated announcement finds no text, and each delta finds a message that
      was announced once. */
  lemma {:induction false} TextNeverLostIff(t: seq<Event>)
    requires PlainAnnouncements(t)
    ensures (forall n :: 0 <= n <= |t| ==> ShowsAll(t, n)) <==> (forall k :: 0 <= k < |t| ==> Keeps(t, k))
  {
    if forall k :: 0 <= k < |t| ==> Keeps(t, k) {
      forall n | 0 <= n <= |t| ensures ShowsAll(t, n) {
        KeptIsShown(t, n);
      }
    } else {
      var k :| 0 <= k < |t| && !Keeps(t, k);
      if ShowsAll(t, k) {
        ShowsAllStep(t, k);
        assert !ShowsAll(t, k + 1);
      }
    }
  }

  // ---------- What is dropped when nothing is replaced ----------

  /** The deltas that find no message: the bridge drops them. */
  function Dropped(t: seq<Event>): string {
    if t == [] then ""
    else Dropped(Init(t)) + if LatestMessage(Init(t)).None? then DeltaOf(Last(t)) else ""
  }

  predicate EachSteady(t: seq<Event>) {
    forall k :: 0 <= k < |t| ==> Steady(t[..k], t[k])
  }

  /** Event `k` lands. */
  predicate LandsAt(t: seq<Event>, k: nat)
    requires k < |t|
  {
    Lands(t[..k], t[k])
  }

  function DroppedOf(t: seq<Event>, e: Event): string {
    if LatestMessage(t).None? then DeltaOf(e) else ""
  }

  lemma {:induction false} DroppedStep(t: seq<Event>, n: nat)
    requires n < |t|
    ensures Dropped(t[..n + 1]) == Dropped(t[..n]) + DroppedOf(t[..n], t[n])
    ensures DroppedOf(t[..n], t[n]) == "" <==> LandsAt(t, n)
  {
    assert Init(t[..n + 1]) == t[..n] && Last(t[..n + 1]) == t[n];
  }

  lemma {:induction false} OneMoreSplits(t: seq<Event>, e: Event, dropped: string, all: string)
    requires dropped + TextNow(t) == all
    requires Steady(t, e) && (Announces(e) ==> Shown(e.item) == "")
    ensures dropped + DroppedOf(t, e) + TextNow(t + [e]) == all + DeltaOf(e)
  {
    if LatestMessage(t).Some? {
      EventText(t, e);
      AppendAssociative(dropped, TextNow(t), DeltaOf(e));
      assert dropped + "" == dropped;
    } else {
      NothingShown(t, e);
      assert dropped + "" == dropped && dropped + DeltaOf(e) + "" == dropped + DeltaOf(e);
    }
  }

  lemma {:induction false} SplitsSoFar(t: seq<Event>, n: nat)
    requires PlainAnnouncements(t) && EachSteady(t) && n <= |t|
    ensures Dropped(t[..n]) + TextNow(t[..n]) == Deltas(t[..n])
  {
    if n > 0 {
      SplitsSoFar(t, n - 1);
      OneMoreSplits(t[..n - 1], t[n - 1], Dropped(t[..n - 1]), Deltas(t[..n - 1]));
      DroppedStep(t, n - 1);
      DeltasStep(t, n - 1);
      TakeOneMore(t, n - 1);
    } else {
      assert t[..0] == [];
    }
  }

  lemma {:induction false} NothingShown(t: seq<Event>, e: Event)
    requires LatestMessage(t).None? && Steady(t, e) && (Announces(e) ==> Shown(e.item) == "")
    ensures TextNow(t) == "" && TextNow(t + [e]) == ""
  {
    NoMessageNoText(Accumulate(t).order, Accumulate(t).items);
    if e.kind.TextDelta? {
      AccumulateAppend(t, e);
      assert Consume(Accumulate(t), e) == Accumulate(t);
    } else {
      EventText(t, e);
    }
  }

  /** Where all events are steady, every text delta is either dropped or found in the output: all deltas joined are the
      dropped ones followed by the output's text. */
  lemma {:induction false} TextSplits(t: seq<Event>)
    requires PlainAnnouncements(t) && EachSteady(t)
    ensures Dropped(t) + TextNow(t) == Deltas(t)
  {
    SplitsSoFar(t, |t|);
    assert t[..|t|] == t;
  }

  predicate AllLand(t: seq<Event>, n: nat)
    requires n <= |t|
  {
    forall k :: 0 <= k < n ==> LandsAt(t, k)
  }

  lemma {:induction false} AllLandStep(t: seq<Event>, m: nat)
    requires m < |t|
    ensures AllLand(t, m + 1) <==> AllLand(t, m) && LandsAt(t, m)
  {
  }

  lemma {:induction false} DroppedIsEmptyIff(t: seq<Event>, n: nat)
    requires n <= |t|
    ensures Dropped(t[..n]) == "" <==> AllLand(t, n)
  {
    if n > 0 {
      var m := n - 1;
      DroppedIsEmptyIff(t, m);
      AllLandStep(t, m);
      DroppedStep(t, m);
      BothEmpty(Dropped(t[..m]), DroppedOf(t[..m], t[m]));
    } else {
      assert t[..0] == [];
    }
  }

  lemma {:induction false} BothEmpty(a: string, b: string)
    ensures a + b == "" <==> a == "" && b == ""
  {
    assert |a + b| == |a| + |b|;
  }

  /** Where all events are steady, text is conserved in the end exactly when each delta finds a message. */
  lemma {:induction false} TextConservedIff(t: seq<Event>)
    requires PlainAnnouncements(t) && EachSteady(t)
    ensures TextNow(t) == Deltas(t) <==> AllLand(t, |t|)
  {
    TextSplits(t);
    DroppedIsEmptyIff(t, |t|);
    assert t[..|t|] == t;
    assert "" + TextNow(t) == TextNow(t);
    if TextNow(t) == Deltas(t) {
      assert |Dropped(t)| + |Deltas(t)| == |Deltas(t)|;
    }
  }

  /** In terms of the events: a message to land on is any announced id whose item was last set as a message. */
  lemma {:induction false} MessageToLandOn(t: seq<Event>)
    ensures LatestMessage(t).Some? <==> exists i :: 0 <= i < |Announced(t)| && SetAsMessage(t, Announced(t)[i])
  {
    var a := Accumulate(t);
    OutputFollowsAnnouncements(t);
    if LatestMessage(t).Some? {
      LatestMessageIs(t, LatestMessage(t).value);
    }
    if i :| 0 <= i < |Announced(t)| && SetAsMessage(t, Announced(t)[i]) {
      SetAsMessageIsMessage(t, Announced(t)[i]);
      SomeLatest(a.order, a.items, i);
    }
  }

  // ---------- Through the bridge ----------

  /** What stands before `e` when it comes after `src`: the events so far, and the announcement left out for it. */
  ghost function Before(src: seq<Event>, e: Event): seq<Event> {
    Spelled(src) + LeftOut(src, e)
  }

  /** After `n` events of the source, the bridge's output shows all text so far. */
  predicate BridgeShowsAll(src: seq<Event>, n: nat)
    requires n <= |src|
  {
    TextNow(Events(Forward(src[..n]))) == Deltas(src[..n])
  }

  /** Event `k` of the source is steady and lands. */
  ghost predicate KeepsInBridge(src: seq<Event>, k: nat)
    requires k < |src|
  {
    Steady(Before(src[..k], src[k]), src[k]) && Lands(Before(src[..k], src[k]), src[k])
  }

  /** The announcement left out for a message event that names an unmentioned item. */
  lemma {:induction false} NoticeOf(src: seq<Event>, e: Event) returns (notice: Event)
    requires MessageKind(e.kind) && Real(e.itemId) && !Mentioned(src, e.itemId.value)
    ensures Before(src, e) == Spelled(src) + [notice]
    ensures Announces(notice) && notice.item.id == e.itemId && notice.item.itype == Some("message") && Shown(notice.item) == ""
  {
    notice := ItemNotice(e.itemId.value, e.outputIndex);
  }

  lemma {:induction false} NothingToAdd(src: seq<Event>, e: Event)
    requires !MessageKind(e.kind) || !Real(e.itemId) || Mentioned(src, e.itemId.value)
    ensures Before(src, e) == Spelled(src)
  {
    assert LeftOut(src, e) == [];
  }

  lemma {:induction false} NoticeShowsTheSame(t: seq<Event>, notice: Event)
    requires Announces(notice) && Shown(notice.item) == "" && notice.item.id.value !in Announced(t)
    ensures TextNow(t + [notice]) == TextNow(t)
    ensures Announced(t + [notice]) == Announced(t) + [notice.item.id.value]
  {
    assert Init(t + [notice]) == t;
    OutputFollowsAnnouncements(t);
    AccumulateAppend(t, notice);
    AnnouncedText(Accumulate(t), notice);
  }

  /** A left-out announcement shows no text, and announces nothing for the second time. */
  lemma {:induction false} BeforeShowsTheSame(src: seq<Event>, e: Event)
    ensures TextNow(Before(src, e)) == TextNow(Spelled(src))
    ensures Distinct(Announced(Spelled(src))) ==> Distinct(Announced(Before(src, e)))
    ensures Announces(e) ==> Before(src, e) == Spelled(src)
  {
    if MessageKind(e.kind) && Real(e.itemId) && !Mentioned(src, e.itemId.value) {
      var notice := NoticeOf(src, e);
      if e.itemId.value in Announced(Spelled(src)) {
        SpelledAnnouncedAreMentioned(src, e.itemId.value);
      }
      NoticeShowsTheSame(Spelled(src), notice);
    } else {
      NothingToAdd(src, e);
    }
  }

  /** One event of the source, through the bridge. */
  lemma {:induction false} BridgeShowsAllStep(src: seq<Event>, k: nat)
    requires PlainAnnouncements(src) && k < |src| && BridgeShowsAll(src, k)
    ensures BridgeShowsAll(src, k + 1) <==> KeepsInBridge(src, k)
  {
    var rest, next, e := src[..k], src[..k + 1], src[k];
    assert Init(next) == rest && Last(next) == e;
    assert Spelled(next) == Before(rest, e) + [e];
    BeforeShowsTheSame(rest, e);
    EventText(Before(rest, e), e);
    ForwardAccumulatesSpelled(rest);
    ForwardAccumulatesSpelled(next);
    DeltasStep(src, k);
  }

  lemma {:induction false} KeptIsShownByBridge(src: seq<Event>, n: nat)
    requires PlainAnnouncements(src) && n <= |src| && forall k :: 0 <= k < n ==> KeepsInBridge(src, k)
    ensures BridgeShowsAll(src, n)
  {
    if n > 0 {
      KeptIsShownByBridge(src, n - 1);
      BridgeShowsAllStep(src, n - 1);
    } else {
      assert src[..0] == [] && Events(Forward(src[..0])) == [];
    }
  }

  /** For any source whose announcements carry no text: at all times the accumulated output shows all text of the source
      so far, if and only if, once left-out announcements are made, each done event confirms, each repeated or late
      announcement finds no text, and each delta lands on a message announced once. */
  lemma {:induction false} BridgeNeverLosesIff(src: seq<Event>)
    requires PlainAnnouncements(src)
    ensures (forall n :: 0 <= n <= |src| ==> BridgeShowsAll(src, n)) <==> (forall k :: 0 <= k < |src| ==> KeepsInBridge(src, k))
  {
    if forall k :: 0 <= k < |src| ==> KeepsInBridge(src, k) {
      forall n | 0 <= n <= |src| ensures BridgeShowsAll(src, n) {
        KeptIsShownByBridge(src, n);
      }
    } else {
      var k :| 0 <= k < |src| && !KeepsInBridge(src, k);
      if BridgeShowsAll(src, k) {
        BridgeShowsAllStep(src, k);
        assert !BridgeShowsAll(src, k + 1);
      }
    }
  }

  // ---------- Sources that name messages ----------

  /** Every text delta names an item, and no item so named is announced, or done, as anything but a message. */
  predicate DeltasNameMessages(src: seq<Event>) {
    && (forall d :: d in src && d.kind.TextDelta? ==> Real(d.itemId))
    && (forall d, e :: d in src && e in src && d.kind.TextDelta? && d.itemId.Some? && Sets(e, d.itemId.value) ==>
          e.item.itype == Some("message"))
  }

  ghost predicate OnlyMessage(t: seq<Event>, id: string) {
    forall k :: 0 <= k < |t| && Sets(t[k], id) ==> t[k].item.itype == Some("message")
  }

  lemma {:induction false} OnlyMessageIsMessage(t: seq<Event>, id: string)
    requires OnlyMessage(t, id) && id in Announced(t)
    ensures SetAsMessage(t, id)
  {
    var rest := Init(t);
    assert Last(t) == t[|t| - 1] && forall k :: 0 <= k < |rest| ==> rest[k] == t[k];
    if !Sets(Last(t), id) {
      OutputFollowsAnnouncements(t);
      assert id in Announced(rest);
      OnlyMessageIsMessage(rest, id);
    }
  }

  lemma {:induction false} SpelledOnlyMessage(src: seq<Event>, id: string)
    requires OnlyMessage(src, id)
    ensures OnlyMessage(Spelled(src), id)
  {
    if src != [] {
      var rest, e := Init(src), Last(src);
      assert e == src[|rest|] && forall k :: 0 <= k < |rest| ==> rest[k] == src[k];
      SpelledOnlyMessage(rest, id);
      var left := LeftOut(rest, e);
      assert forall k :: 0 <= k < |left| ==> left[k].item.itype == Some("message");
    }
  }

  lemma {:induction false} MentionedIsAnnounced(src: seq<Event>, id: string)
    requires id != "" && Mentioned(src, id)
    ensures id in Announced(Spelled(src))
  {
    var rest, e := Init(src), Last(src);
    assert src != [] && rest + [e] == src;
    MentionedAppend(rest, e, id);
    SpelledAnnouncements(src);
    if Mentioned(rest, id) {
      MentionedIsAnnounced(rest, id);
    }
  }

  lemma {:induction false} SetByLast(t: seq<Event>, notice: Event)
    requires Announces(notice) && notice.item.itype == Some("message")
    ensures SetAsMessage(t + [notice], notice.item.id.value) && notice.item.id.value in Announced(t + [notice])
  {
    assert Init(t + [notice]) == t;
    assert Announced(t + [notice]) == Announced(t) + [notice.item.id.value];
  }

  /** A delta that names a message lands. */
  lemma {:induction false} NamedDeltaLands(src: seq<Event>, e: Event)
    requires e.kind.TextDelta? && Real(e.itemId) && OnlyMessage(src, e.itemId.value)
    ensures Lands(Before(src, e), e)
  {
    var id := e.itemId.value;
    if Mentioned(src, id) {
      NothingToAdd(src, e);
      SpelledOnlyMessage(src, id);
      MentionedIsAnnounced(src, id);
      OnlyMessageIsMessage(Spelled(src), id);
      MessageToLandOn(Spelled(src));
    } else {
      var notice := NoticeOf(src, e);
      SetByLast(Spelled(src), notice);
      MessageToLandOn(Spelled(src) + [notice]);
    }
  }

  /** No item is announced twice, nor after a message event that names it. */
  predicate AnnouncedOnce(src: seq<Event>) {
    Distinct(Announced(src)) && AnnouncedInTime(src)
  }

  lemma {:induction false} AnnouncedOncePrefix(src: seq<Event>, n: nat)
    requires n <= |src| && AnnouncedOnce(src)
    ensures AnnouncedOnce(src[..n])
  {
    if n < |src| {
      AnnouncedInit(src);
      AnnouncedOncePrefix(Init(src), n);
      assert Init(src)[..n] == src[..n];
    } else {
      assert src[..n] == src;
    }
  }

  /** Where each item is announced once, only a done event can disturb. */
  lemma {:induction false} OnceIsSteady(t: seq<Event>, e: Event)
    requires Distinct(Announced(t)) && (Announces(e) ==> e.item.id.value !in Announced(t)) && Confirms(t, e)
    ensures Steady(t, e)
  {
    OutputFollowsAnnouncements(t);
    if LatestMessage(t).Some? {
      LatestMessageIs(t, LatestMessage(t).value);
      TimesOnce(Announced(t), LatestMessage(t).value);
    }
  }

  /** No text is lost in the bridge when the source announces each item once, in time and without text, its done events
      confirm the text shown, and its deltas name items set as messages or not at all. */
  lemma {:induction false} BridgeConservesText(src: seq<Event>)
    requires PlainAnnouncements(src) && AnnouncedOnce(src) && DeltasNameMessages(src)
    requires forall k :: 0 <= k < |src| ==> Confirms(Spelled(src[..k]), src[k])
    ensures TextNow(Events(Forward(src))) == Deltas(src)
  {
    forall k | 0 <= k < |src| ensures KeepsInBridge(src, k) {
      OnceIsSteadyInBridge(src, k);
      NamingLands(src, k);
    }
    KeptIsShownByBridge(src, |src|);
    assert src[..|src|] == src;
  }

  lemma {:induction false} OnceIsSteadyInBridge(src: seq<Event>, k: nat)
    requires AnnouncedOnce(src) && k < |src| && Confirms(Spelled(src[..k]), src[k])
    ensures Steady(Before(src[..k], src[k]), src[k])
  {
    var rest, e, next := src[..k], src[k], src[..k + 1];
    assert Init(next) == rest && Last(next) == e;
    AnnouncedOncePrefix(src, k);
    AnnouncedOncePrefix(src, k + 1);
    SpelledAnnouncesOnce(rest);
    SpelledAnnouncesOnce(next);
    BeforeShowsTheSame(rest, e);
    assert Init(Spelled(next)) == Before(rest, e) && Last(Spelled(next)) == e;
    AnnouncedInit(Spelled(next));
    if e.kind.ItemDone? {
      assert Before(rest, e) == Spelled(rest);
    }
    OnceIsSteady(Before(rest, e), e);
  }

  lemma {:induction false} NamingLands(src: seq<Event>, k: nat)
    requires DeltasNameMessages(src) && k < |src|
    ensures Lands(Before(src[..k], src[k]), src[k])
  {
    if src[k].kind.TextDelta? {
      assert forall j :: 0 <= j < k ==> src[..k][j] == src[j];
      NamedDeltaLands(src[..k], src[k]);
    }
  }

  /** A delta that names no item and comes before any message is lost in the bridge. */
  lemma {:induction false} EarlyDeltaIsLost(delta: Event)
    requires delta.kind.TextDelta? && delta.itemId == None
    ensures TextNow(Events(Forward([delta]))) == "" && Deltas([delta]) == delta.delta
  {
    ForwardAccumulatesSpelled([delta]);
    assert ItemsAnnounced([delta]);
    NothingLeftOut([delta]);
    OneDelta(delta);
  }

  lemma {:induction false} OneDelta(delta: Event)
    requires delta.kind.TextDelta?
    ensures TextNow([delta]) == "" && Deltas([delta]) == delta.delta
  {
    assert Init([delta]) == [];
    assert Accumulate([delta]) == Consume(EMPTY_ACC, delta);
    assert Deltas([delta]) == "" + delta.delta;
  }

  /** Naming messages is not enough: a done event replaces the item, and the text it leaves out is gone. */
  lemma {:induction false} DoneEventLosesText(added: Event, delta: Event, done: Event)
    requires added.kind.ItemAdded? && added.item == Item(Some("m"), Some("message"), Some([]), None, map[])
    requires delta.kind.TextDelta? && delta.itemId == Some("m") && delta.delta == "x"
    requires done.kind.ItemDone? && done.item == added.item
    ensures DeltasNameMessages([added, delta, done]) && AnnouncedInTime([added, delta, done])
    ensures TextNow(Events(Forward([added, delta, done]))) == "" && Deltas([added, delta, done]) == "x"
  {
    var t := [added, delta, done];
    AllAnnounced(added, delta, done, "m");
    NamesAreMessages(added, delta, done);
    NothingLeftOut(t);
    ForwardAccumulatesSpelled(t);
    RemovedText(added, delta, done);
  }

  /** So does a repeated announcement: it resets the item. */
  lemma {:induction false} RepeatedAnnouncementLosesText(added: Event, delta: Event)
    requires added.kind.ItemAdded? && added.item == Item(Some("m"), Some("message"), Some([]), None, map[])
    requires delta.kind.TextDelta? && delta.itemId == Some("m") && delta.delta == "x"
    ensures TextNow(Events(Forward([added, delta, added]))) == "" && Deltas([added, delta, added]) == "x"
  {
    AllAnnounced(added, delta, added, "m");
    NothingLeftOut([added, delta, added]);
    ForwardAccumulatesSpelled([added, delta, added]);
    ResetText(added, delta);
  }

  lemma {:induction false} ResetText(added: Event, delta: Event)
    requires added.kind.ItemAdded? && Real(added.item.id) && Shown(added.item) == "" && delta.kind.TextDelta?
    ensures TextNow([added, delta, added]) == "" && Deltas([added, delta, added]) == delta.delta
  {
    var t, id := [added, delta, added], added.item.id.value;
    assert Init(t) == [added, delta] && Init([added, delta]) == [added] && Init([added]) == [];
    OutputFollowsAnnouncements([added, delta]);
    assert Announced([added]) == [] + [id];
    assert Announced([added, delta]) == [id] + [];
    TwiceText(Accumulate([added, delta]), added);
    assert Deltas([added]) == "" + "";
    assert Deltas([added, delta]) == "" + delta.delta;
  }

  lemma {:induction false} TwiceText(a: Acc, added: Event)
    requires Announces(added) && a.order == [added.item.id.value] && Shown(added.item) == ""
    ensures After(a, added) == ""
  {
    var b, id := Consume(a, added), added.item.id.value;
    assert b.order == a.order + [id] && Init(b.order) == a.order && Init(a.order) == [];
    assert OutputText(a.order, b.items) == "" + "";
  }

  lemma {:induction false} NamesAreMessages(added: Event, delta: Event, done: Event)
    requires added.kind.ItemAdded? && delta.kind.TextDelta? && Real(delta.itemId) && done.kind.ItemDone?
    requires added.item.itype == Some("message") && done.item.itype == Some("message")
    ensures DeltasNameMessages([added, delta, done]) && AnnouncedInTime([added, delta, done])
  {
    var t := [added, delta, done];
    assert forall e :: e in t ==> e == added || e == delta || e == done;
  }

  lemma {:induction false} AllAnnounced(added: Event, delta: Event, done: Event, id: string)
    requires AnnouncesItem(added, id) && delta.itemId == Some(id) && !MessageKind(done.kind)
    ensures ItemsAnnounced([added, delta, done])
  {
    var t := [added, delta, done];
    assert t[..1] == [added] && AnnouncesItem(t[..1][0], id) && t[1] == delta;
  }

  lemma {:induction false} RemovedText(added: Event, delta: Event, done: Event)
    requires added.kind.ItemAdded? && Real(added.item.id) && TextOf(added.item) == ""
    requires delta.kind.TextDelta? && done.kind.ItemDone? && done.item == added.item
    ensures TextNow([added, delta, done]) == "" && Deltas([added, delta, done]) == delta.delta
  {
    var t, id := [added, delta, done], added.item.id.value;
    assert Init(t) == [added, delta] && Init([added, delta]) == [added] && Init([added]) == [];
    OutputFollowsAnnouncements(t);
    assert Announced([added]) == [] + [id];
    assert Announced([added, delta]) == [id] + [];
    assert Announced(t) == [id] + [];
    OneItemText(Accumulate([added, delta]), done);
    assert Deltas([added]) == "" + "";
    assert Deltas([added, delta]) == "" + delta.delta;
  }

  lemma {:induction false} OneItemText(a: Acc, done: Event)
    requires done.kind.ItemDone? && Real(done.item.id) && a.order == [done.item.id.value] && TextOf(done.item) == ""
    ensures After(a, done) == ""
  {
    var b := Consume(a, done);
    assert Init(a.order) == [] && b.order == a.order && b.items[Last(a.order)] == done.item;
    assert OutputText(b.order, b.items) == "" + Shown(done.item);
  }
}
