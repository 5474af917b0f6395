/** Streaming refines non-streaming: a stream that serialises a response leaves exactly that response's output. */
module StreamRefinement {
  import opened JsonValues
  import opened Streaming
  import opened StreamRepair
  import opened StreamFold
  import opened StreamSpelling

  /** Distinct, non-empty ids. */
  predicate ProperIds(out: seq<Item>) {
    && (forall i :: 0 <= i < |out| ==> Real(out[i].id))
    && (forall i, j :: 0 <= i < j < |out| ==> out[i].id != out[j].id)
  }

  function Ids(out: seq<Item>): (r: seq<string>)
    requires ProperIds(out)
    ensures |r| == |out|
    ensures forall i :: 0 <= i < |out| ==> Some(r[i]) == out[i].id
  {
    seq(|out|, i requires 0 <= i < |out| => out[i].id.value)
  }

  ghost predicate DoneIn(t: seq<Event>, id: string) {
    exists k :: 0 <= k < |t| && Finishes(t[k], id)
  }

  predicate Finishes(e: Event, id: string) {
    e.kind.ItemDone? && e.item.id == Some(id)
  }

  /** `m` is the latest message announced in `t`. */
  ghost predicate LatestAnnounced(t: seq<Event>, m: string) {
    exists j :: 0 <= j < |t| && LatestAnnouncedAt(t, m, j)
  }

  predicate LatestAnnouncedAt(t: seq<Event>, m: string, j: nat)
    requires j < |t|
  {
    && AnnouncesItem(t[j], m) && t[j].item.itype == Some("message")
    && forall l :: j < l < |t| && Announces(t[l]) ==> t[l].item.itype != Some("message")
  }

  /** After `t`, the next event `e` fits a serialisation of the output: announcements have the final type, done
      events carry the final item and follow the announcement, text comes while the latest announced message is
      not done, and no argument delta is for an item that is done. */
  ghost predicate Fits(t: seq<Event>, e: Event, out: seq<Item>) {
    && (Announces(e) ==> forall x :: x in out && x.id == e.item.id ==> x.itype == e.item.itype)
    && (e.kind.ItemDone? && Real(e.item.id) ==> e.item in out && ItemKnown(t, e.item.id.value))
    && (e.kind.TextDelta? ==> exists m :: m != "" && LatestAnnounced(t, m) && !DoneIn(t, m))
    && (e.kind.ArgsDelta? && Real(e.itemId) ==> !DoneIn(t, e.itemId.value))
  }

  /** The events serialise a response with this output. */
  ghost predicate Serialises(t: seq<Event>, out: seq<Item>) {
    && ProperIds(out) && Announced(t) == Ids(out)
    && (forall k :: 0 <= k < |t| ==> Fits(t[..k], t[k], out))
    && (forall x :: x in out ==> DoneIn(t, x.id.value))
  }

  /** The accumulator agrees with the final output as far as the trace has come. */
  ghost predicate OnTrack(t: seq<Event>, a: Acc, out: seq<Item>) {
    forall x :: x in out && Real(x.id) ==>
      && (x.id.value in a.items ==> a.items[x.id.value].itype == x.itype)
      && (DoneIn(t, x.id.value) ==> x.id.value in a.items && a.items[x.id.value] == x)
  }

  lemma {:induction false} DoneOnTrack(t: seq<Event>, a: Acc, e: Event, out: seq<Item>)
    requires OnTrack(t, a, out) && ProperIds(out) && e.kind.ItemDone? && Fits(t, e, out)
    ensures OnTrack(t + [e], Consume(a, e), out)
  {
  }

  // ---------- Text goes where the events say ----------

  lemma {:induction false} LatestAnnouncedIsLatest(t: seq<Event>, items: map<string, Item>, m: string, j: nat)
    requires j < |t| && m != "" && LatestAnnouncedAt(t, m, j)
    requires m in items && items[m].itype == Some("message")
    requires forall l :: j < l < |t| && Announces(t[l]) ==>
               t[l].item.id.value in items && items[t[l].item.id.value].itype != Some("message")
    ensures Latest(Announced(t), items, "message") == Some(m)
  {
    var rest := Init(t);
    if j == |rest| {
      assert Last(Announced(t)) == m;
    } else {
      assert Last(t) == t[|rest|];
      LatestAnnouncedIsLatest(rest, items, m, j);
      if Announces(Last(t)) {
        assert Last(Announced(t)) == Last(t).item.id.value;
        assert Init(Announced(t)) == Announced(rest);
      } else {
        assert Announced(t) == Announced(rest);
      }
    }
  }

  /** In a serialisation under way, an announced item has the type of its announcement. */
  lemma {:induction false} AnnouncedType(t: seq<Event>, out: seq<Item>, l: nat)
    requires l < |t| && Announces(t[l]) && ProperIds(out)
    requires forall k :: 0 <= k < |t| ==> Fits(t[..k], t[k], out)
    requires OnTrack(t, Accumulate(t), out) && Announced(t) <= Ids(out)
    ensures t[l].item.id.value in Accumulate(t).items
    ensures Accumulate(t).items[t[l].item.id.value].itype == t[l].item.itype
  {
    var id := t[l].item.id.value;
    AnnouncedMember(t, l);
    OutputFollowsAnnouncements(t);
    var i :| 0 <= i < |Announced(t)| && Announced(t)[i] == id;
    assert Ids(out)[i] == id && out[i] in out;
    assert Fits(t[..l], t[l], out);
  }

  lemma {:induction false} DeltaLandsOnLatestAnnounced(t: seq<Event>, out: seq<Item>, m: string)
    requires ProperIds(out) && m != "" && LatestAnnounced(t, m)
    requires forall k :: 0 <= k < |t| ==> Fits(t[..k], t[k], out)
    requires OnTrack(t, Accumulate(t), out) && Announced(t) <= Ids(out)
    ensures Latest(Accumulate(t).order, Accumulate(t).items, "message") == Some(m)
  {
    var j :| 0 <= j < |t| && LatestAnnouncedAt(t, m, j);
    forall l | 0 <= l < |t| && Announces(t[l])
      ensures t[l].item.id.value in Accumulate(t).items
      ensures Accumulate(t).items[t[l].item.id.value].itype == t[l].item.itype
    {
      AnnouncedType(t, out, l);
    }
    OutputFollowsAnnouncements(t);
    LatestAnnouncedIsLatest(t, Accumulate(t).items, m, j);
  }

  // ---------- The refinement ----------

  lemma {:induction false} DoneWasAnnounced(t: seq<Event>, out: seq<Item>, id: string)
    requires forall k :: 0 <= k < |t| ==> Fits(t[..k], t[k], out)
    requires id != "" && DoneIn(t, id)
    ensures id in Announced(t)
  {
    var k :| 0 <= k < |t| && Finishes(t[k], id);
    assert Fits(t[..k], t[k], out);
    var j :| 0 <= j < k && AnnouncesItem(t[..k][j], id);
    AnnouncedMember(t, j);
  }

  lemma {:induction false} NoRepeatedId(ids: seq<string>, id: string, out: seq<Item>)
    requires ProperIds(out) && ids + [id] <= Ids(out)
    ensures id !in ids
  {
    assert (ids + [id])[|ids|] == Ids(out)[|ids|];
    forall i | 0 <= i < |ids| ensures ids[i] != id {
      assert (ids + [id])[i] == Ids(out)[i];
    }
  }

  lemma {:induction false} AnnouncementOnTrack(t: seq<Event>, a: Acc, e: Event, out: seq<Item>)
    requires ProperIds(out) && Announces(e) && Fits(t, e, out) && OnTrack(t, a, out)
    requires !DoneIn(t, e.item.id.value)
    ensures OnTrack(t + [e], Consume(a, e), out)
  {
  }

  lemma {:induction false} ArgsOnTrack(t: seq<Event>, a: Acc, e: Event, out: seq<Item>)
    requires ProperIds(out) && Fits(t, e, out) && OnTrack(t, a, out) && e.kind.ArgsDelta?
    ensures OnTrack(t + [e], Consume(a, e), out)
  {
  }

  lemma {:induction false} TextOnTrack(t: seq<Event>, a: Acc, e: Event, out: seq<Item>, m: string)
    requires ProperIds(out) && OnTrack(t, a, out) && e.kind.TextDelta?
    requires Latest(a.order, a.items, "message") == Some(m) && !DoneIn(t, m)
    ensures OnTrack(t + [e], Consume(a, e), out)
  {
  }

  lemma {:induction false} OtherOnTrack(t: seq<Event>, a: Acc, e: Event, out: seq<Item>)
    requires OnTrack(t, a, out)
    requires !e.kind.ItemDone? && !Announces(e) && !e.kind.TextDelta? && !e.kind.ArgsDelta?
    ensures OnTrack(t + [e], Consume(a, e), out)
  {
  }

  /** An announcement for an item that is done would be a second one. */
  lemma {:induction false} AnnouncedIsNotDone(t: seq<Event>, e: Event, out: seq<Item>)
    requires ProperIds(out) && Announces(e) && Announced(t + [e]) <= Ids(out)
    requires forall k :: 0 <= k < |t| ==> Fits(t[..k], t[k], out)
    ensures !DoneIn(t, e.item.id.value)
  {
    assert Init(t + [e]) == t;
    NoRepeatedId(Announced(t), e.item.id.value, out);
    if DoneIn(t, e.item.id.value) {
      DoneWasAnnounced(t, out, e.item.id.value);
    }
  }

  lemma {:induction false} StepOnTrack(t: seq<Event>, a: Acc, e: Event, out: seq<Item>)
    requires a == Accumulate(t)
    requires ProperIds(out) && Announced(t + [e]) <= Ids(out) && Announced(t) <= Ids(out)
    requires forall k :: 0 <= k < |t| ==> Fits(t[..k], t[k], out)
    requires Fits(t, e, out) && OnTrack(t, a, out)
    ensures OnTrack(t + [e], Consume(a, e), out)
  {
    if e.kind.ItemDone? {
      DoneOnTrack(t, a, e, out);
    } else if Announces(e) {
      AnnouncedIsNotDone(t, e, out);
      AnnouncementOnTrack(t, a, e, out);
    } else if e.kind.TextDelta? {
      var m :| m != "" && LatestAnnounced(t, m) && !DoneIn(t, m);
      DeltaLandsOnLatestAnnounced(t, out, m);
      TextOnTrack(t, a, e, out, m);
    } else if e.kind.ArgsDelta? {
      ArgsOnTrack(t, a, e, out);
    } else {
      OtherOnTrack(t, a, e, out);
    }
  }

  lemma {:induction false} PrefixOnTrack(t: seq<Event>, out: seq<Item>)
    requires ProperIds(out) && Announced(t) <= Ids(out)
    requires forall k :: 0 <= k < |t| ==> Fits(t[..k], t[k], out)
    ensures OnTrack(t, Accumulate(t), out)
  {
    if t != [] {
      var rest := Init(t);
      assert forall k :: 0 <= k < |rest| ==> rest[k] == t[k] && rest[..k] == t[..k];
      assert Fits(t[..|rest|], t[|rest|], out) && t[..|rest|] == rest;
      PrefixOnTrack(rest, out);
      assert rest + [Last(t)] == t;
      StepOnTrack(rest, Accumulate(rest), Last(t), out);
    }
  }

  /** If the events the client sees serialise a response, the accumulated output is that response's output. */
  lemma {:induction false} StreamRefinesResponse(t: seq<Event>, out: seq<Item>)
    requires Serialises(t, out)
    ensures Covered(Accumulate(t)) && Output(Accumulate(t)) == out
  {
    PrefixOnTrack(t, out);
    OutputFollowsAnnouncements(t);
    forall i | 0 <= i < |out| ensures Output(Accumulate(t))[i] == out[i] {
      assert out[i] in out;
      assert Accumulate(t).order[i] == out[i].id.value;
    }
  }

  /** The same over the bridge: if the provider's events, with the item announcements they leave out spelled out,
      serialise a response, then what the bridge accumulates is that response's output.  Content parts may be
      missing anywhere. */
  lemma {:induction false} BridgeRefinesResponse(rewriteId: Option<string>, src: seq<Event>, out: seq<Item>)
    requires Serialises(Spelled(src), out)
    ensures var a := Accumulate(Events(Forward(RewriteAll(rewriteId, src))));
            Covered(a) && Output(a) == out
  {
    var a, b := Accumulate(Events(Forward(RewriteAll(rewriteId, src)))), Accumulate(Spelled(src));
    ForwardAccumulatesSpelled(RewriteAll(rewriteId, src));
    RewrittenSpelled(rewriteId, src);
    StreamRefinesResponse(Spelled(src), out);
    SameOutput(a, b);
  }

  lemma {:induction false} SameOutput(a: Acc, b: Acc)
    requires SameItems(a, b) && Covered(b)
    ensures Covered(a) && Output(a) == Output(b)
  {
  }

  /** For events that announce each message item before they name it, that is a condition on the events themselves. */
  lemma {:induction false} AnnouncedSourceRefinesResponse(rewriteId: Option<string>, src: seq<Event>, out: seq<Item>)
    requires ItemsAnnounced(src) && Serialises(src, out)
    ensures var a := Accumulate(Events(Forward(RewriteAll(rewriteId, src))));
            Covered(a) && Output(a) == out
  {
    NothingLeftOut(src);
    BridgeRefinesResponse(rewriteId, src, out);
  }

  /** The condition is met by the ordinary stream of one message: announced, streamed, done. */
  lemma {:induction false} OrdinaryStreamSerialises(added: Event, delta: Event, done: Event)
    requires added.kind.ItemAdded? && Real(added.item.id) && added.item.itype == Some("message")
    requires delta.kind.TextDelta?
    requires done.kind.ItemDone? && done.item.id == added.item.id && done.item.itype == Some("message")
    ensures Serialises([added, delta, done], [done.item])
  {
    var t, out, id := [added, delta, done], [done.item], added.item.id.value;
    assert t[..0] == [] && t[..1] == [added] && t[..2] == [added, delta];
    assert Init(t) == t[..2] && Init(t[..2]) == t[..1] && Init(t[..1]) == t[..0];
    assert Last(t[..1]) == added && Last(t[..2]) == delta && Last(t) == done;
    assert Announced(t[..1]) == [] + [id];
    assert Announced(t[..2]) == [id] + [];
    assert Announced(t) == [id] + [];
    assert LatestAnnouncedAt(t[..1], id, 0) && id != "";
    assert !DoneIn(t[..1], id) && LatestAnnounced(t[..1], id);
    assert AnnouncesItem(t[..2][0], id);
    assert Fits(t[..0], t[0], out) && Fits(t[..1], t[1], out) && Fits(t[..2], t[2], out);
    assert Finishes(t[2], id);
    assert Ids(out) == [id];
  }

  /** It is met as well by a provider that streams a message without announcing item or part. */
  lemma {:induction false} UnannouncedStreamSerialises(delta: Event, done: Event)
    requires delta.kind.TextDelta? && Real(delta.itemId)
    requires done.kind.ItemDone? && done.item.id == delta.itemId && done.item.itype == Some("message")
    ensures Serialises(Spelled([delta, done]), [done.item])
  {
    var notice := ItemNotice(delta.itemId.value, delta.outputIndex);
    OrdinaryStreamSerialises(notice, delta, done);
    SpelledTwo(delta, done);
  }

  lemma {:induction false} SpelledTwo(delta: Event, done: Event)
    requires delta.kind.TextDelta? && Real(delta.itemId) && done.kind.ItemDone?
    ensures Spelled([delta, done]) == [ItemNotice(delta.itemId.value, delta.outputIndex), delta, done]
  {
    var t := [delta, done];
    assert Init(t) == [delta] && Init([delta]) == [];
    assert LeftOut([], delta) == [ItemNotice(delta.itemId.value, delta.outputIndex)];
    assert LeftOut([delta], done) == [];
    assert Spelled([delta]) == [] + LeftOut([], delta) + [delta];
  }
}
