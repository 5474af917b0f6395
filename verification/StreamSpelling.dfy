/** A source with the item announcements it left out spelled out: for the accumulator, the bridge does exactly this. */
module StreamSpelling {
  import opened JsonValues
  import opened Streaming
  import opened StreamRepair
  import opened StreamFold

  /** Some event of the source announces the item, or is a message event that names it. */
  ghost predicate Mentioned(src: seq<Event>, id: string) {
    exists k :: 0 <= k < |src| && Mentions(src[k], id)
  }

  predicate Mentions(e: Event, id: string) {
    AnnouncesItem(e, id) || (MessageKind(e.kind) && e.itemId == Some(id))
  }

  /** The announcement that a source left out before its next event. */
  ghost function LeftOut(src: seq<Event>, e: Event): seq<Event> {
    if MessageKind(e.kind) && Real(e.itemId) && !Mentioned(src, e.itemId.value)
    then [ItemNotice(e.itemId.value, e.outputIndex)] else []
  }

  /** The source with every message item announced before its first message event.  Content parts need no
      announcement here. */
  ghost function Spelled(src: seq<Event>): seq<Event> {
    if src == [] then [] else Spelled(Init(src)) + LeftOut(Init(src), Last(src)) + [Last(src)]
  }

  lemma {:induction false} MentionedAppend(src: seq<Event>, e: Event, id: string)
    ensures Mentioned(src + [e], id) <==> Mentioned(src, id) || Mentions(e, id)
  {
    assert (src + [e])[|src|] == e;
    if Mentioned(src, id) {
      var k :| 0 <= k < |src| && Mentions(src[k], id);
      assert Mentions((src + [e])[k], id);
    }
  }

  /** The bridge's book holds the non-empty ids that the source mentions. */
  lemma {:induction false} BookHoldsMentioned(src: seq<Event>, id: string)
    requires id != ""
    ensures id in BookAfter(src).items <==> Mentioned(src, id)
  {
    if src != [] {
      BookHoldsMentioned(Init(src), id);
      assert Init(src) + [Last(src)] == src;
      MentionedAppend(Init(src), Last(src), id);
    }
  }

  // ---------- The accumulator cannot tell the difference ----------

  /** An inserted content part, and a notice for the empty id, are lost on the accumulator. */
  lemma {:induction false} NoticeConsumed(a: Acc, id: string, outputIndex: Json, contentIndex: int)
    ensures Consume(a, PartNotice(id, contentIndex, outputIndex)) == a
    ensures id == "" ==> Consume(a, ItemNotice(id, outputIndex)) == a
  {
  }

  lemma {:induction false} NoticesAccumulate(t: seq<Event>, src: seq<Event>, e: Event)
    ensures Accumulate(t + Missing(BookAfter(src), e)) ==
            if LeftOut(src, e) == [] then Accumulate(t) else Consume(Accumulate(t), LeftOut(src, e)[0])
  {
    if MessageKind(e.kind) && e.itemId.Some? {
      var id := e.itemId.value;
      var first := if id in BookAfter(src).items then [] else [ItemNotice(id, e.outputIndex)];
      ItemNoticeAccumulates(t, src, e);
      NoticeConsumed(Accumulate(t + first), id, e.outputIndex, e.contentIndex);
      var part := PartNotice(id, e.contentIndex, e.outputIndex);
      AccumulateAppend(t + first, part);
      if Missing(BookAfter(src), e) == first + [part] {
        AppendAssociative(t, first, [part]);
      } else {
        assert Missing(BookAfter(src), e) == first;
      }
    } else {
      assert t + Missing(BookAfter(src), e) == t;
    }
  }

  lemma {:induction false} ItemNoticeAccumulates(t: seq<Event>, src: seq<Event>, e: Event)
    requires MessageKind(e.kind) && e.itemId.Some?
    ensures var first := if e.itemId.value in BookAfter(src).items then [] else [ItemNotice(e.itemId.value, e.outputIndex)];
            Accumulate(t + first) ==
            if LeftOut(src, e) == [] then Accumulate(t) else Consume(Accumulate(t), LeftOut(src, e)[0])
  {
    var id := e.itemId.value;
    if id == "" {
      NoticeConsumed(Accumulate(t), id, e.outputIndex, e.contentIndex);
    } else {
      BookHoldsMentioned(src, id);
    }
    if id in BookAfter(src).items {
      assert t + [] == t;
    } else {
      AccumulateAppend(t, ItemNotice(id, e.outputIndex));
    }
  }

  /** Folding what the bridge forwards is folding the source with the left-out item announcements. */
  lemma {:induction false} ForwardAccumulatesSpelled(src: seq<Event>)
    ensures Accumulate(Events(Forward(src))) == Accumulate(Spelled(src))
  {
    if src == [] {
      assert Events(Forward(src)) == [];
    } else {
      var rest, e := Init(src), Last(src);
      var t, missing := Events(Forward(rest)), Missing(BookAfter(rest), e);
      ForwardAccumulatesSpelled(rest);
      ForwardLast(src);
      NoticesAccumulate(t, rest, e);
      AccumulateAppend(t + missing, e);
      SpelledStep(rest, e);
    }
  }

  lemma {:induction false} SpelledStep(src: seq<Event>, e: Event)
    ensures Accumulate(Spelled(src) + LeftOut(src, e) + [e]) ==
            Consume(if LeftOut(src, e) == [] then Accumulate(Spelled(src))
                    else Consume(Accumulate(Spelled(src)), LeftOut(src, e)[0]), e)
  {
    AccumulateAppend(Spelled(src) + LeftOut(src, e), e);
    if LeftOut(src, e) == [] {
      assert Spelled(src) + LeftOut(src, e) == Spelled(src);
    } else {
      AccumulateAppend(Spelled(src), LeftOut(src, e)[0]);
    }
  }

  // ---------- Sources that leave nothing out ----------

  /** Every message event with a non-empty id names an item announced before; parts may be missing. */
  ghost predicate ItemsAnnounced(src: seq<Event>) {
    forall k :: 0 <= k < |src| && MessageKind(src[k].kind) && Real(src[k].itemId) ==> ItemKnown(src[..k], src[k].itemId.value)
  }

  lemma {:induction false} NothingLeftOut(src: seq<Event>)
    requires ItemsAnnounced(src)
    ensures Spelled(src) == src
  {
    if src != [] {
      var rest, e := Init(src), Last(src);
      ItemsAnnouncedInit(src);
      NothingLeftOut(rest);
      KnownIsMentioned(rest, e);
      PutBack(src, LeftOut(rest, e));
    }
  }

  lemma {:induction false} PutBack(src: seq<Event>, between: seq<Event>)
    requires src != [] && between == []
    ensures Init(src) + between + [Last(src)] == src
  {
  }

  lemma {:induction false} ItemsAnnouncedInit(src: seq<Event>)
    requires src != [] && ItemsAnnounced(src)
    ensures ItemsAnnounced(Init(src))
    ensures MessageKind(Last(src).kind) && Real(Last(src).itemId) ==> ItemKnown(Init(src), Last(src).itemId.value)
  {
    var rest := Init(src);
    assert src[..|rest|] == rest && src[|rest|] == Last(src);
    forall k | 0 <= k < |rest| && MessageKind(rest[k].kind) && Real(rest[k].itemId)
      ensures ItemKnown(rest[..k], rest[k].itemId.value)
    {
      assert rest[k] == src[k] && rest[..k] == src[..k];
    }
  }

  lemma {:induction false} KnownIsMentioned(t: seq<Event>, e: Event)
    requires MessageKind(e.kind) && Real(e.itemId) ==> ItemKnown(t, e.itemId.value)
    ensures LeftOut(t, e) == []
  {
    if MessageKind(e.kind) && Real(e.itemId) {
      var j :| 0 <= j < |t| && AnnouncesItem(t[j], e.itemId.value);
      assert Mentions(t[j], e.itemId.value);
    }
  }

  // ---------- Announcements of the spelled-out source ----------

  /** No item is announced after a message event that names it. */
  predicate AnnouncedInTime(src: seq<Event>) {
    forall j, k :: 0 <= j < k < |src| && MessageKind(src[j].kind) && Announces(src[k]) ==> src[j].itemId != src[k].item.id
  }

  lemma {:induction false} SpelledAnnouncements(src: seq<Event>)
    requires src != []
    ensures var rest, e := Init(src), Last(src);
            Announced(Spelled(src)) == Announced(Spelled(rest)) +
              if LeftOut(rest, e) != [] then [e.itemId.value] else if Announces(e) then [e.item.id.value] else []
  {
    var rest, e := Init(src), Last(src);
    var before := Spelled(rest) + LeftOut(rest, e);
    assert Init(Spelled(src)) == before && Last(Spelled(src)) == e;
    if LeftOut(rest, e) != [] {
      assert Init(before) == Spelled(rest);
    } else {
      assert before == Spelled(rest);
    }
  }

  lemma {:induction false} SpelledAnnouncedAreMentioned(src: seq<Event>, id: string)
    requires id in Announced(Spelled(src))
    ensures id != "" && Mentioned(src, id)
  {
    var rest, e := Init(src), Last(src);
    SpelledAnnouncements(src);
    assert rest + [e] == src;
    MentionedAppend(rest, e, id);
    if id in Announced(Spelled(rest)) {
      SpelledAnnouncedAreMentioned(rest, id);
    }
  }

  lemma {:induction false} MentionedThenAnnounced(src: seq<Event>, e: Event)
    requires Announces(e) && AnnouncedInTime(src + [e]) && Mentioned(src, e.item.id.value)
    ensures e.item.id.value in Announced(src)
  {
    var k :| 0 <= k < |src| && Mentions(src[k], e.item.id.value);
    assert (src + [e])[k] == src[k] && (src + [e])[|src|] == e;
    AnnouncedMember(src, k);
  }

  lemma {:induction false} AnnouncedMember(t: seq<Event>, l: nat)
    requires l < |t|
    ensures Announces(t[l]) ==> t[l].item.id.value in Announced(t)
  {
    if l < |Init(t)| {
      AnnouncedMember(Init(t), l);
    }
  }

  /** Spelling out announces no item twice if the source does not and announces each in time. */
  lemma {:induction false} SpelledAnnouncesOnce(src: seq<Event>)
    requires Distinct(Announced(src)) && AnnouncedInTime(src)
    ensures Distinct(Announced(Spelled(src)))
  {
    if src != [] {
      var rest, e := Init(src), Last(src);
      assert rest + [e] == src;
      AnnouncedInit(src);
      SpelledAnnouncesOnce(rest);
      SpelledAnnouncements(src);
      if LeftOut(rest, e) != [] && e.itemId.value in Announced(Spelled(rest)) {
        SpelledAnnouncedAreMentioned(rest, e.itemId.value);
      } else if Announces(e) && e.item.id.value in Announced(Spelled(rest)) {
        SpelledAnnouncedAreMentioned(rest, e.item.id.value);
        MentionedThenAnnounced(rest, e);
      }
    }
  }

  lemma {:induction false} AnnouncedInit(t: seq<Event>)
    requires t != [] && Distinct(Announced(t))
    ensures Distinct(Announced(Init(t)))
    ensures Announces(Last(t)) ==> Last(t).item.id.value !in Announced(Init(t))
  {
    var order, before := Announced(t), Announced(Init(t));
    assert forall i :: 0 <= i < |before| ==> order[i] == before[i];
    if Announces(Last(t)) {
      assert order[|before|] == Last(t).item.id.value;
    }
  }

  // ---------- Rewriting the response id ----------

  lemma {:induction false} MentionedRewritten(rewriteId: Option<string>, src: seq<Event>, id: string)
    ensures Mentioned(RewriteAll(rewriteId, src), id) <==> Mentioned(src, id)
  {
    assert forall k :: 0 <= k < |src| ==> Mentions(RewriteAll(rewriteId, src)[k], id) == Mentions(src[k], id);
  }

  predicate SameItems(a: Acc, b: Acc) {
    a.items == b.items && a.order == b.order
  }

  lemma {:induction false} RewrittenConsumed(rewriteId: Option<string>, a: Acc, b: Acc, e: Event)
    requires SameItems(a, b)
    ensures SameItems(Consume(a, Rewrite(rewriteId, e)), Consume(b, e))
  {
  }

  lemma {:induction false} RewrittenLeftOut(rewriteId: Option<string>, src: seq<Event>, e: Event)
    ensures LeftOut(RewriteAll(rewriteId, src), Rewrite(rewriteId, e)) == LeftOut(src, e)
  {
    if e.itemId.Some? {
      MentionedRewritten(rewriteId, src, e.itemId.value);
    }
  }

  /** Rewriting the response id changes neither the items nor their order. */
  lemma {:induction false} RewrittenSpelled(rewriteId: Option<string>, src: seq<Event>)
    ensures SameItems(Accumulate(Spelled(RewriteAll(rewriteId, src))), Accumulate(Spelled(src)))
  {
    if src != [] {
      var rest, e := Init(src), Last(src);
      var rest', e' := RewriteAll(rewriteId, rest), Rewrite(rewriteId, e);
      RewrittenLeftOut(rewriteId, rest, e);
      RewrittenSpelled(rewriteId, rest);
      SpelledStep(rest, e);
      SpelledStep(rest', e');
      RewriteInit(rewriteId, src);
      var a, b := Accumulate(Spelled(rest')), Accumulate(Spelled(rest));
      if LeftOut(rest, e) == [] {
        RewrittenConsumed(rewriteId, a, b, e);
      } else {
        RewrittenConsumed(None, a, b, LeftOut(rest, e)[0]);
        RewrittenConsumed(rewriteId, Consume(a, LeftOut(rest, e)[0]), Consume(b, LeftOut(rest, e)[0]), e);
      }
    }
  }

  lemma {:induction false} RewriteInit(rewriteId: Option<string>, src: seq<Event>)
    requires src != []
    ensures var all := RewriteAll(rewriteId, src);
            Init(all) == RewriteAll(rewriteId, Init(src)) && Last(all) == Rewrite(rewriteId, Last(src))
  {
  }
}
