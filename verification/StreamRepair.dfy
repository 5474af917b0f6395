/** What the bridge's inserted announcements achieve, and that it inserts no more than it must. */
module StreamRepair {
  import opened JsonValues
  import opened Streaming

  // ---------- The precedence rule, on traces alone ----------

  predicate AnnouncesItem(e: Event, id: string) {
    e.kind.ItemAdded? && e.item.id == Some(id)
  }

  predicate AnnouncesPart(e: Event, id: string, contentIndex: int) {
    e.kind.PartAdded? && e.itemId == Some(id) && e.contentIndex == contentIndex
  }

  ghost predicate ItemKnown(trace: seq<Event>, id: string) {
    exists j :: 0 <= j < |trace| && AnnouncesItem(trace[j], id)
  }

  ghost predicate PartKnown(trace: seq<Event>, id: string, contentIndex: int) {
    exists j :: 0 <= j < |trace| && AnnouncesPart(trace[j], id, contentIndex)
  }

  /** `e` may follow `trace`: its message item, and for text its content part, were announced before. */
  ghost predicate Obeys(trace: seq<Event>, e: Event) {
    MessageKind(e.kind) && e.itemId.Some? ==>
      ItemKnown(trace, e.itemId.value) && (TextKind(e.kind) ==> PartKnown(trace, e.itemId.value, e.contentIndex))
  }

  ghost predicate WellAnnounced(trace: seq<Event>) {
    forall k :: 0 <= k < |trace| ==> Obeys(trace[..k], trace[k])
  }

  /** A message event whose item id is the empty string: the one id the book forgets when a provider announces it. */
  predicate Nameless(e: Event) {
    MessageKind(e.kind) && e.itemId == Some("")
  }

  ghost predicate AnyNameless(t: seq<Event>) {
    exists e :: e in t && Nameless(e)
  }

  lemma {:induction false} AnyNamelessAppend(a: seq<Event>, b: seq<Event>)
    ensures AnyNameless(a + b) <==> AnyNameless(a) || AnyNameless(b)
    ensures |b| == 1 ==> (AnyNameless(b) <==> Nameless(b[0]))
  {
  }

  lemma {:induction false} ItemKnownAppend(t: seq<Event>, e: Event, id: string)
    ensures ItemKnown(t + [e], id) <==> ItemKnown(t, id) || AnnouncesItem(e, id)
  {
    assert (t + [e])[|t|] == e;
    if ItemKnown(t, id) {
      var j :| 0 <= j < |t| && AnnouncesItem(t[j], id);
      assert AnnouncesItem((t + [e])[j], id);
    }
  }

  lemma {:induction false} PartKnownAppend(t: seq<Event>, e: Event, id: string, c: int)
    ensures PartKnown(t + [e], id, c) <==> PartKnown(t, id, c) || AnnouncesPart(e, id, c)
  {
    assert (t + [e])[|t|] == e;
    if PartKnown(t, id, c) {
      var j :| 0 <= j < |t| && AnnouncesPart(t[j], id, c);
      assert AnnouncesPart((t + [e])[j], id, c);
    }
  }

  lemma {:induction false} WellAnnouncedAppend(t: seq<Event>, e: Event)
    ensures WellAnnounced(t + [e]) <==> WellAnnounced(t) && Obeys(t, e)
  {
    var u := t + [e];
    assert u[..|t|] == t && u[|t|] == e;
    assert forall k :: 0 <= k < |t| ==> u[..k] == t[..k] && u[k] == t[k];
    if WellAnnounced(u) {
      forall k | 0 <= k < |t| ensures Obeys(t[..k], t[k]) {
        assert Obeys(u[..k], u[k]);
      }
      assert Obeys(u[..|t|], u[|t|]);
    }
  }

  // ---------- The book never lags behind the trace, and runs ahead only for "" ----------

  ghost predicate BookMatches(book: Book, t: seq<Event>) {
    && (forall id :: id in book.items ==> ItemKnown(t, id))
    && (forall id :: id != "" && ItemKnown(t, id) ==> id in book.items)
    && (forall id, c :: (id, c) in book.parts ==> PartKnown(t, id, c))
    && (forall id, c :: id != "" && PartKnown(t, id, c) ==> (id, c) in book.parts)
  }

  /** The book after one event known to the client. */
  function Told(book: Book, e: Event): Book {
    match e.kind
    case ItemAdded => if e.item.id.Some? then book.(items := book.items + {e.item.id.value}) else book
    case PartAdded => if e.itemId.Some? then book.(parts := book.parts + {(e.itemId.value, e.contentIndex)}) else book
    case _ => book
  }

  lemma {:induction false} ToldMatches(book: Book, next: Book, t: seq<Event>, e: Event)
    requires BookMatches(book, t)
    requires book.items <= next.items <= Told(book, e).items && book.parts <= next.parts <= Told(book, e).parts
    requires next.items - {""} == Told(book, e).items - {""}
    requires forall id, c :: (id, c) in Told(book, e).parts && id != "" ==> (id, c) in next.parts
    ensures BookMatches(next, t + [e])
  {
    forall id ensures ItemKnown(t + [e], id) <==> ItemKnown(t, id) || AnnouncesItem(e, id) {
      ItemKnownAppend(t, e, id);
    }
    forall id, c ensures PartKnown(t + [e], id, c) <==> PartKnown(t, id, c) || AnnouncesPart(e, id, c) {
      PartKnownAppend(t, e, id, c);
    }
    assert forall id :: AnnouncesItem(e, id) ==> id in Told(book, e).items;
    forall id | id != "" && ItemKnown(t + [e], id) ensures id in next.items {
      assert id in Told(book, e).items - {""};
    }
  }

  lemma {:induction false} ItemNoticeRepairs(book: Book, t: seq<Event>, id: string, outputIndex: Json)
    requires BookMatches(book, t) && WellAnnounced(t) && id !in book.items
    ensures BookMatches(book.(items := book.items + {id}), t + [ItemNotice(id, outputIndex)])
    ensures WellAnnounced(t + [ItemNotice(id, outputIndex)])
  {
    WellAnnouncedAppend(t, ItemNotice(id, outputIndex));
    ToldMatches(book, book.(items := book.items + {id}), t, ItemNotice(id, outputIndex));
  }

  lemma {:induction false} PartNoticeRepairs(book: Book, t: seq<Event>, id: string, c: int, outputIndex: Json)
    requires BookMatches(book, t) && WellAnnounced(t) && id in book.items
    ensures BookMatches(book.(parts := book.parts + {(id, c)}), t + [PartNotice(id, c, outputIndex)])
    ensures WellAnnounced(t + [PartNotice(id, c, outputIndex)])
  {
    WellAnnouncedAppend(t, PartNotice(id, c, outputIndex));
    ToldMatches(book, book.(parts := book.parts + {(id, c)}), t, PartNotice(id, c, outputIndex));
  }

  /** The book and the trace once everything missing before `e` has been inserted. */
  lemma {:induction false} NoticesRepair(book: Book, t: seq<Event>, e: Event) returns (told: Book)
    requires BookMatches(book, t) && WellAnnounced(t) && MessageKind(e.kind) && e.itemId.Some?
    ensures BookMatches(told, t + Missing(book, e)) && WellAnnounced(t + Missing(book, e))
    ensures told.items == book.items + {e.itemId.value}
    ensures told.parts == book.parts + if TextKind(e.kind) then {(e.itemId.value, e.contentIndex)} else {}
  {
    var id, c := e.itemId.value, e.contentIndex;
    told := book;
    var t' := t;
    if id !in book.items {
      ItemNoticeRepairs(book, t, id, e.outputIndex);
      told := book.(items := book.items + {id});
      t' := t + [ItemNotice(id, e.outputIndex)];
    }
    assert told.items == book.items + {id};
    if TextKind(e.kind) && (id, c) !in book.parts {
      PartNoticeRepairs(told, t', id, c, e.outputIndex);
      told := told.(parts := told.parts + {(id, c)});
      t' := t' + [PartNotice(id, c, e.outputIndex)];
    }
    assert t' == t + Missing(book, e);
  }

  /** One step of the bridge keeps the forwarded trace well announced and the book in step with it. */
  lemma {:induction false} StepRepairs(book: Book, t: seq<Event>, e: Event)
    requires BookMatches(book, t) && WellAnnounced(t)
    ensures BookMatches(Noted(book, e), t + Missing(book, e) + [e])
    ensures WellAnnounced(t + Missing(book, e) + [e])
  {
    if !MessageKind(e.kind) || e.itemId.None? {
      assert t + Missing(book, e) == t;
      WellAnnouncedAppend(t, e);
      ToldMatches(book, Noted(book, e), t, e);
    } else {
      var told := NoticesRepair(book, t, e);
      WellAnnouncedAppend(t + Missing(book, e), e);
      ToldMatches(told, Noted(book, e), t + Missing(book, e), e);
    }
  }

  /** For every source: what is forwarded announces each message item and each text part before it is used. */
  lemma {:induction false} ForwardedIsWellAnnounced(src: seq<Event>)
    ensures WellAnnounced(Events(Forward(src)))
    ensures BookMatches(BookAfter(src), Events(Forward(src)))
  {
    if src == [] {
      assert Events(Forward(src)) == [];
    } else {
      var rest, e := Init(src), Last(src);
      var t := Events(Forward(rest));
      ForwardLast(src);
      ForwardedIsWellAnnounced(rest);
      StepRepairs(BookAfter(rest), t, e);
    }
  }

  // ---------- Nothing is lost ----------

  /** The forwarded events that came from the source. */
  function Originals(outs: seq<Out>): seq<Event> {
    if outs == [] then []
    else Originals(Init(outs)) + if Last(outs).synthetic then [] else [Last(outs).event]
  }

  lemma {:induction false} OriginalsAppend(a: seq<Out>, b: seq<Out>)
    ensures Originals(a + b) == Originals(a) + Originals(b)
  {
    if b == [] {
      assert a + b == a;
    } else {
      var last := if Last(b).synthetic then [] else [Last(b).event];
      calc {
        Originals(a + b);
        { assert Init(a + b) == a + Init(b); }
        Originals(a + Init(b)) + last;
        { OriginalsAppend(a, Init(b)); }
        Originals(a) + Originals(Init(b)) + last;
        Originals(a) + Originals(b);
      }
    }
  }

  lemma {:induction false} SyntheticsAreNotOriginal(es: seq<Event>)
    ensures Originals(Tag(es, true)) == []
  {
    if es != [] {
      assert Init(Tag(es, true)) == Tag(Init(es), true);
      SyntheticsAreNotOriginal(Init(es));
    }
  }

  lemma {:induction false} EmittedOriginals(book: Book, e: Event)
    ensures Originals(Emit(book, e)) == [e]
  {
    SyntheticsAreNotOriginal(Missing(book, e));
    assert Init(Emit(book, e)) == Tag(Missing(book, e), true);
  }

  /** Erasing the inserted events gives back the source, in order. */
  lemma {:induction false} ErasingSyntheticsGivesSource(src: seq<Event>)
    ensures Originals(Forward(src)) == src
  {
    if src != [] {
      var rest, book, e := Init(src), BookAfter(Init(src)), Last(src);
      calc {
        Originals(Forward(src));
        Originals(Forward(rest) + Emit(book, e));
        { OriginalsAppend(Forward(rest), Emit(book, e)); }
        Originals(Forward(rest)) + Originals(Emit(book, e));
        { ErasingSyntheticsGivesSource(rest); EmittedOriginals(book, e); }
        rest + [e];
        src;
      }
    }
  }

  // ---------- Nothing is inserted twice, or without need ----------

  /** `later` is a message event that may not be sent before the announcement `a`. */
  predicate Needs(later: Event, a: Event) {
    && MessageKind(later.kind) && later.itemId.Some?
    && (AnnouncesItem(a, later.itemId.value) ||
        (TextKind(later.kind) && AnnouncesPart(a, later.itemId.value, later.contentIndex)))
  }

  /** The same item, or the same part of the same item, is announced by both. */
  predicate SameAnnouncement(a: Event, b: Event) {
    || (a.kind.ItemAdded? && a.item.id.Some? && AnnouncesItem(b, a.item.id.value))
    || (a.kind.PartAdded? && a.itemId.Some? && AnnouncesPart(b, a.itemId.value, a.contentIndex))
  }

  function AnnouncedId(a: Event): Option<string> {
    if a.kind.ItemAdded? then a.item.id else if a.kind.PartAdded? then a.itemId else None
  }

  /** An inserted event at `k` is needed by the event right after it, and repeats no earlier insertion nor,
      for a non-empty id, any earlier announcement at all. */
  ghost predicate Justified(outs: seq<Out>, k: nat)
    requires k < |outs|
  {
    outs[k].synthetic ==>
      && k + 1 < |outs|
      && Needs(outs[k + 1].event, outs[k].event)
      && AnnouncedId(outs[k].event).Some?
      && forall j :: 0 <= j < k && SameAnnouncement(outs[k].event, outs[j].event) ==>
           AnnouncedId(outs[k].event) == Some("") && !outs[j].synthetic
  }

  /** An insertion for "" is remembered, although a provider's own announcement of "" is not. */
  ghost predicate RemembersSynthetics(book: Book, outs: seq<Out>) {
    forall j :: 0 <= j < |outs| && outs[j].synthetic ==>
      && (outs[j].event.kind.ItemAdded? && outs[j].event.item.id.Some? ==> outs[j].event.item.id.value in book.items)
      && (outs[j].event.kind.PartAdded? && outs[j].event.itemId.Some? ==>
            (outs[j].event.itemId.value, outs[j].event.contentIndex) in book.parts)
  }

  lemma {:induction false} JustifiedStays(outs: seq<Out>, more: seq<Out>, k: nat)
    requires k < |outs| && Justified(outs, k)
    ensures Justified(outs + more, k)
  {
  }

  lemma {:induction false} EmittedIsJustified(book: Book, outs: seq<Out>, e: Event, k: nat)
    requires BookMatches(book, Events(outs)) && RemembersSynthetics(book, outs)
    requires |outs| <= k < |outs| + |Emit(book, e)|
    ensures Justified(outs + Emit(book, e), k)
  {
  }

  lemma {:induction false} EmittedIsRemembered(book: Book, outs: seq<Out>, e: Event)
    requires RemembersSynthetics(book, outs)
    ensures RemembersSynthetics(Noted(book, e), outs + Emit(book, e))
  {
  }

  lemma {:induction false} BookRemembers(src: seq<Event>)
    ensures RemembersSynthetics(BookAfter(src), Forward(src))
  {
    if src != [] {
      BookRemembers(Init(src));
      EmittedIsRemembered(BookAfter(Init(src)), Forward(Init(src)), Last(src));
    }
  }

  /** For every source, each inserted event is needed at once and inserted at most once. */
  lemma {:induction false} InsertionsAreJustified(src: seq<Event>, k: nat)
    requires k < |Forward(src)|
    ensures Justified(Forward(src), k)
  {
    var rest := Init(src);
    if k < |Forward(rest)| {
      InsertionsAreJustified(rest, k);
      JustifiedStays(Forward(rest), Emit(BookAfter(rest), Last(src)), k);
    } else {
      ForwardedIsWellAnnounced(rest);
      BookRemembers(rest);
      EmittedIsJustified(BookAfter(rest), Forward(rest), Last(src), k);
    }
  }

  function Without(trace: seq<Event>, k: nat): seq<Event>
    requires k < |trace|
  {
    trace[..k] + trace[k + 1..]
  }

  /** No item and no part is announced twice by the bridge. */
  lemma {:induction false} OneInsertionEach(src: seq<Event>, j: nat, k: nat)
    requires j < k < |Forward(src)| && Forward(src)[j].synthetic && Forward(src)[k].synthetic
    ensures !SameAnnouncement(Forward(src)[k].event, Forward(src)[j].event)
  {
    InsertionsAreJustified(src, k);
  }

  /** What is known without the event at `k`, when an earlier event announces the same. */
  lemma {:induction false} KnownWithout(t: seq<Event>, k: nat, j: nat, m: nat)
    requires j < k < |t| && SameAnnouncement(t[k], t[j]) && k <= m < |t|
    ensures forall id :: ItemKnown(t[..m], id) ==> ItemKnown(Without(t, k)[..m - (if k < m then 1 else 0)], id)
    ensures forall id, c :: PartKnown(t[..m], id, c) ==> PartKnown(Without(t, k)[..m - (if k < m then 1 else 0)], id, c)
  {
    var fewer := Without(t, k);
    var cut := fewer[..m - (if k < m then 1 else 0)];
    assert cut[j] == t[j];
    forall id | ItemKnown(t[..m], id) ensures ItemKnown(cut, id) {
      var w :| 0 <= w < m && AnnouncesItem(t[..m][w], id);
      var v := if w < k then w else if w == k then j else w - 1;
      assert AnnouncesItem(cut[v], id);
    }
    forall id, c | PartKnown(t[..m], id, c) ensures PartKnown(cut, id, c) {
      var w :| 0 <= w < m && AnnouncesPart(t[..m][w], id, c);
      var v := if w < k then w else if w == k then j else w - 1;
      assert AnnouncesPart(cut[v], id, c);
    }
  }

  lemma {:induction false} RepeatIsSuperfluous(t: seq<Event>, k: nat, j: nat)
    requires WellAnnounced(t) && j < k < |t| && SameAnnouncement(t[k], t[j])
    ensures WellAnnounced(Without(t, k))
  {
    var fewer := Without(t, k);
    forall m | 0 <= m < |fewer| ensures Obeys(fewer[..m], fewer[m]) {
      if m < k {
        assert fewer[..m] == t[..m] && fewer[m] == t[m];
      } else {
        assert fewer[m] == t[m + 1];
        assert Obeys(t[..m + 1], t[m + 1]);
        KnownWithout(t, k, j, m + 1);
      }
    }
  }

  /** Minimality: taking any one inserted event away breaks the precedence rule, exactly when nothing forwarded
      before it makes the same announcement. */
  lemma {:induction false} InsertionIsNeededIff(src: seq<Event>, k: nat)
    requires k < |Forward(src)| && Forward(src)[k].synthetic
    ensures var trace := Events(Forward(src));
            !WellAnnounced(Without(trace, k)) <==> forall j :: 0 <= j < k ==> !SameAnnouncement(trace[k], trace[j])
  {
    var outs := Forward(src);
    var trace := Events(outs);
    ForwardedIsWellAnnounced(src);
    if j :| 0 <= j < k && SameAnnouncement(trace[k], trace[j]) {
      RepeatIsSuperfluous(trace, k, j);
    } else {
      InsertionsAreJustified(src, k);
      var fewer := Without(trace, k);
      assert fewer[..k] == trace[..k] && fewer[k] == trace[k + 1];
      assert forall j :: 0 <= j < k ==> fewer[..k][j] == trace[j];
      assert !Obeys(fewer[..k], fewer[k]);
    }
  }

  /** What was forwarded for the first events of a source stays in front. */
  lemma {:induction false} ForwardPrefix(src: seq<Event>, n: nat)
    requires n <= |src|
    ensures Forward(src[..n]) <= Forward(src)
  {
    if n < |src| {
      assert Init(src)[..n] == src[..n];
      ForwardPrefix(Init(src), n);
    } else {
      assert src[..n] == src;
    }
  }

  lemma {:induction false} ForwardHolds(src: seq<Event>, j: nat) returns (at: nat)
    requires j < |src|
    ensures at < |Forward(src)| && Forward(src)[at] == Out(src[j], false)
  {
    if j < |src| - 1 {
      at := ForwardHolds(Init(src), j);
    } else {
      at := |Forward(src)| - 1;
    }
  }

  /** An event forwarded before an insertion that announces the same is one of the source's, from before the event that
      the insertion is for. */
  lemma {:induction false} RepeatIsTheSources(src: seq<Event>, n: nat, k: nat, j: nat)
    requires n < |src| && |Forward(src[..n])| <= k < |Forward(src[..n + 1])| && k < |Forward(src)| && j < k
    requires Forward(src)[k].synthetic && SameAnnouncement(Forward(src)[k].event, Forward(src)[j].event)
    ensures exists i :: 0 <= i < n && SameAnnouncement(Forward(src)[k].event, src[i])
  {
    var outs, before := Forward(src), Forward(src[..n]);
    ForwardPrefix(src, n);
    ForwardPrefix(src, n + 1);
    if outs[j].synthetic {
      OneInsertionEach(src, j, k);
    }
    assert Init(src[..n + 1]) == src[..n] && Last(src[..n + 1]) == src[n];
    assert Forward(src[..n + 1]) == before + Emit(BookAfter(src[..n]), src[n]);
    assert outs[k] == Forward(src[..n + 1])[k];
    assert j < |before|;
    ForwardedComesFromSource(src[..n], j);
    var i :| 0 <= i < n && src[..n][i] == outs[j].event;
    assert src[i] == outs[j].event;
  }

  /** The same on the source: an announcement inserted for its event `n` is superfluous exactly when the provider had
      made the same announcement before that event. */
  lemma {:induction false} InsertionIsSuperfluousIff(src: seq<Event>, n: nat, k: nat)
    requires n < |src| && |Forward(src[..n])| <= k < |Forward(src[..n + 1])|
    ensures k < |Forward(src)|
    ensures Forward(src)[k].synthetic ==>
              (WellAnnounced(Without(Events(Forward(src)), k)) <==>
                 exists i :: 0 <= i < n && SameAnnouncement(Forward(src)[k].event, src[i]))
  {
    ForwardPrefix(src, n + 1);
    ForwardPrefix(src, n);
    if Forward(src)[k].synthetic {
      var trace := Events(Forward(src));
      InsertionIsNeededIff(src, k);
      if j :| 0 <= j < k && SameAnnouncement(trace[k], trace[j]) {
        RepeatIsTheSources(src, n, k, j);
      }
      if i :| 0 <= i < n && SameAnnouncement(trace[k], src[i]) {
        assert src[..n][i] == src[i];
        var at := ForwardHolds(src[..n], i);
        assert trace[at] == src[i];
      }
    }
  }

  /** With a non-empty id it always does. */
  lemma {:induction false} RemovingAnInsertionBreaksTheRule(src: seq<Event>, k: nat)
    requires k < |Forward(src)| && Forward(src)[k].synthetic
    requires AnnouncedId(Forward(src)[k].event) != Some("")
    ensures !WellAnnounced(Without(Events(Forward(src)), k))
  {
    InsertionsAreJustified(src, k);
    InsertionIsNeededIff(src, k);
  }

  /** With "" the inserted announcement can be superfluous: the provider announced "" itself, and it is announced again. */
  lemma {:induction false} RemovingAnInsertionForTheEmptyIdMayNot() returns (src: seq<Event>)
    ensures |Forward(src)| == 3 && Forward(src)[1].synthetic
    ensures WellAnnounced(Without(Events(Forward(src)), 1))
  {
    var added := ItemNotice("", Num(0));
    var refusal := Event(RefusalDelta, Some(""), Num(0), 0, "no", NO_ITEM, None, map[]);
    src := [added, refusal];
    assert Init(src) == [added] && Init([added]) == [];
    assert Emit(EMPTY_BOOK, added) == [Out(added, false)] && BookAfter([added]) == EMPTY_BOOK;
    assert Forward([added]) == [Out(added, false)];
    assert Emit(EMPTY_BOOK, refusal) == [Out(added, true), Out(refusal, false)];
    var fewer := Without(Events(Forward(src)), 1);
    assert fewer == [added, refusal];
    assert fewer[..1] == [added];
    assert AnnouncesItem(fewer[..1][0], "");
  }

  // ---------- Which streams pass through unchanged ----------

  ghost predicate Untouched(src: seq<Event>) {
    forall k :: 0 <= k < |Forward(src)| ==> !Forward(src)[k].synthetic
  }

  lemma {:induction false} NothingMadeUp(outs: seq<Out>)
    requires forall k :: 0 <= k < |outs| ==> !outs[k].synthetic
    ensures Originals(outs) == Events(outs)
  {
    if outs != [] {
      NothingMadeUp(Init(outs));
    }
  }

  lemma {:induction false} UntouchedForwardsSource(src: seq<Event>)
    requires Untouched(src)
    ensures Events(Forward(src)) == src
  {
    NothingMadeUp(Forward(src));
    ErasingSyntheticsGivesSource(src);
  }

  lemma {:induction false} NothingMissing(rest: seq<Event>, e: Event)
    requires Events(Forward(rest)) == rest && Obeys(rest, e) && !Nameless(e)
    ensures Missing(BookAfter(rest), e) == []
  {
    ForwardedIsWellAnnounced(rest);
  }

  lemma {:induction false} UntouchedAppend(rest: seq<Event>, e: Event)
    ensures Untouched(rest + [e]) <==> Untouched(rest) && Missing(BookAfter(rest), e) == []
  {
    ForwardStep(rest, e);
    var before, all := Forward(rest), Forward(rest + [e]);
    assert forall k :: 0 <= k < |before| ==> all[k] == before[k];
    if Missing(BookAfter(rest), e) != [] {
      assert all[|before|] == Emit(BookAfter(rest), e)[0];
    }
  }

  lemma {:induction false} ObedientIsUntouched(src: seq<Event>)
    requires WellAnnounced(src) && !AnyNameless(src)
    ensures Untouched(src)
  {
    if src != [] {
      var rest, e := Init(src), Last(src);
      assert rest + [e] == src;
      WellAnnouncedAppend(rest, e);
      AnyNamelessAppend(rest, [e]);
      ObedientIsUntouched(rest);
      UntouchedForwardsSource(rest);
      NothingMissing(rest, e) by { assert e in src; }
      UntouchedAppend(rest, e);
    }
  }

  /** The empty id enters the book only by an insertion. */
  lemma {:induction false} NamelessIsInserted(src: seq<Event>)
    requires Untouched(src)
    ensures "" !in BookAfter(src).items && !AnyNameless(src)
  {
    if src != [] {
      var rest, e := Init(src), Last(src);
      assert rest + [e] == src;
      UntouchedAppend(rest, e);
      NamelessIsInserted(rest);
      AnyNamelessAppend(rest, [e]);
      assert !Nameless(e);
    }
  }

  /** Exactly the streams that obey the precedence rule and never use "" as a message id pass through unchanged. */
  lemma {:induction false} UntouchedIffObedient(src: seq<Event>)
    ensures Untouched(src) <==> WellAnnounced(src) && !AnyNameless(src)
  {
    if Untouched(src) {
      UntouchedForwardsSource(src);
      ForwardedIsWellAnnounced(src);
      NamelessIsInserted(src);
    } else if WellAnnounced(src) && !AnyNameless(src) {
      ObedientIsUntouched(src);
    }
  }

  lemma {:induction false} ForwardedNamelessComeFromSource(src: seq<Event>)
    ensures AnyNameless(Events(Forward(src))) <==> AnyNameless(src)
  {
    if src == [] {
      assert Events(Forward(src)) == [];
    } else {
      var rest, e := Init(src), Last(src);
      var before, missing := Events(Forward(rest)), Missing(BookAfter(rest), e);
      ForwardedNamelessComeFromSource(rest);
      ForwardLast(src);
      assert rest + [e] == src;
      AnyNamelessAppend(rest, [e]);
      AnyNamelessAppend(before + missing, [e]);
      AnyNamelessAppend(before, missing);
      NamelessNotices(BookAfter(rest), e);
    }
  }

  lemma {:induction false} NamelessNotices(book: Book, e: Event)
    ensures AnyNameless(Missing(book, e)) ==> Nameless(e)
  {
  }

  /** The repair is idempotent exactly when no message event of the source carries the empty id. */
  lemma {:induction false} RepairIsIdempotent(src: seq<Event>)
    ensures Untouched(Events(Forward(src))) <==> !AnyNameless(src)
  {
    ForwardedIsWellAnnounced(src);
    UntouchedIffObedient(Events(Forward(src)));
    ForwardedNamelessComeFromSource(src);
  }

  // ---------- The same, kind by kind ----------

  /** In what the client sees, each of the six kinds of message event comes after an announcement of the item it names,
      and text comes after one of its own part of that item. */
  lemma {:induction false} MessageEventsAreAnnounced(src: seq<Event>, k: nat, id: string)
    requires k < |Forward(src)| && Forward(src)[k].event.itemId == Some(id)
    ensures var trace := Events(Forward(src));
            && (trace[k].kind in {TextDelta, TextDone, RefusalDelta, RefusalDone, PartAdded, PartDone} ==>
                  exists j :: 0 <= j < k && trace[j].kind == ItemAdded && trace[j].item.id == Some(id))
            && (trace[k].kind in {TextDelta, TextDone} ==>
                  exists j :: 0 <= j < k && trace[j].kind == PartAdded && trace[j].itemId == Some(id)
                              && trace[j].contentIndex == trace[k].contentIndex)
  {
    var trace := Events(Forward(src));
    ForwardedIsWellAnnounced(src);
    assert Obeys(trace[..k], trace[k]);
    if trace[k].kind in {TextDelta, TextDone, RefusalDelta, RefusalDone, PartAdded, PartDone} {
      var j :| 0 <= j < k && AnnouncesItem(trace[..k][j], id);
      assert trace[j].kind == ItemAdded;
    }
    if trace[k].kind in {TextDelta, TextDone} {
      var j :| 0 <= j < k && AnnouncesPart(trace[..k][j], id, trace[k].contentIndex);
      assert trace[j].kind == PartAdded;
    }
  }

  /** An announcement made up for the message item that an event names: empty, the assistant's, in progress. */
  predicate MadeUpItem(notice: Event, cause: Event) {
    && notice.kind == ItemAdded && notice.outputIndex == cause.outputIndex
    && notice.itemId == None && notice.delta == "" && notice.response == None && notice.extra.Keys == {}
    && notice.item.id == cause.itemId && notice.item.itype == Some("message")
    && notice.item.content == Some([]) && notice.item.arguments == None
    && notice.item.extra.Keys == {"role", "status"}
    && notice.item.extra["role"] == Str("assistant") && notice.item.extra["status"] == Str("in_progress")
  }

  /** One made up for the content part that a text event is about: an empty text without annotations. */
  predicate MadeUpPart(notice: Event, cause: Event) {
    && notice.kind == PartAdded && notice.itemId == cause.itemId
    && notice.outputIndex == cause.outputIndex && notice.contentIndex == cause.contentIndex
    && notice.item == NO_ITEM && notice.delta == "" && notice.response == None
    && notice.extra.Keys == {"part"} && notice.extra["part"].Obj?
    && var part := notice.extra["part"].fields;
    && part.Keys == {"type", "text", "annotations"}
    && part["type"] == Str("output_text") && part["text"] == Str("") && part["annotations"] == Arr([])
  }

  /** What may be inserted before `e`: for the six kinds of message event its item, then for the two kinds of text event
      its part, and nothing else. */
  predicate MayPrecede(notices: seq<Event>, e: Event) {
    && (notices != [] ==> e.kind in {TextDelta, TextDone, RefusalDelta, RefusalDone, PartAdded, PartDone} && e.itemId.Some?)
    && (|notices| == 1 ==> MadeUpItem(notices[0], e) || (e.kind in {TextDelta, TextDone} && MadeUpPart(notices[0], e)))
    && (|notices| == 2 ==> MadeUpItem(notices[0], e) && e.kind in {TextDelta, TextDone} && MadeUpPart(notices[1], e))
    && |notices| <= 2
  }

  lemma {:induction false} MissingMayPrecede(book: Book, e: Event)
    ensures MayPrecede(Missing(book, e), e)
  {
    if MessageKind(e.kind) && e.itemId.Some? {
      NoticesAreMadeUp(e);
    }
  }

  /** Each event of the source is forwarded itself, right after the few announcements made up for it. */
  lemma {:induction false} InsertedForEvent(src: seq<Event>, e: Event) returns (notices: seq<Event>)
    ensures Forward(src + [e]) == Forward(src) + Tag(notices, true) + [Out(e, false)] && MayPrecede(notices, e)
  {
    notices := Missing(BookAfter(src), e);
    ForwardStep(src, e);
    MissingMayPrecede(BookAfter(src), e);
    AppendAssociative(Forward(src), Tag(notices, true), [Out(e, false)]);
  }

  lemma {:induction false} NoticesAreMadeUp(e: Event)
    requires e.itemId.Some?
    ensures MadeUpItem(ItemNotice(e.itemId.value, e.outputIndex), e)
    ensures MadeUpPart(PartNotice(e.itemId.value, e.contentIndex, e.outputIndex), e)
  {
  }

  // ---------- Every lifecycle event shows the gateway's id ----------

  predicate LifecycleEvent(e: Event) {
    e.kind in {Created, InProgress, Completed, Failed, Incomplete} && e.response.Some?
  }

  /** With a gateway id, the response of each of the five kinds of lifecycle event carries it and is otherwise as it was;
      nothing else about any event changes, and without such an id nothing does. */
  lemma {:induction false} RewriteChangesOnlyTheId(rewriteId: Option<string>, src: seq<Event>, k: nat)
    requires k < |src|
    ensures var was, now := src[k], RewriteAll(rewriteId, src)[k];
            if rewriteId.Some? && rewriteId.value != "" && LifecycleEvent(was)
            then now == was.(response := now.response) && now.response.Some?
                 && "id" in now.response.value && now.response.value["id"] == Str(rewriteId.value)
                 && now.response.value - {"id"} == was.response.value - {"id"}
            else now == was
  {
    assert LifecycleEvent(src[k]) <==> Lifecycle(src[k].kind) && src[k].response.Some?;
  }

  /** In what the client sees, each lifecycle event with a response carries the gateway's id, in any source. */
  lemma {:induction false} LifecycleShowsGatewayId(rewriteId: Option<string>, src: seq<Event>, k: nat)
    requires rewriteId.Some? && rewriteId.value != "" && k < |Forward(RewriteAll(rewriteId, src))|
    requires LifecycleEvent(Forward(RewriteAll(rewriteId, src))[k].event)
    ensures Get(Forward(RewriteAll(rewriteId, src))[k].event.response.value, "id") == Str(rewriteId.value)
  {
    var all := RewriteAll(rewriteId, src);
    if Forward(all)[k].synthetic {
      InsertedKinds(all, k);
    } else {
      ForwardedComesFromSource(all, k);
      var j :| 0 <= j < |all| && all[j] == Forward(all)[k].event;
      RewriteChangesOnlyTheId(rewriteId, src, j);
    }
  }

  lemma {:induction false} ForwardedComesFromSource(src: seq<Event>, k: nat)
    requires k < |Forward(src)| && !Forward(src)[k].synthetic
    ensures Forward(src)[k].event in src
  {
    var rest, e := Init(src), Last(src);
    if k < |Forward(rest)| {
      ForwardedComesFromSource(rest, k);
    } else {
      assert Forward(src)[k] == Emit(BookAfter(rest), e)[k - |Forward(rest)|];
      assert e == src[|src| - 1];
    }
  }

  /** Inserted events are announcements only: of messages without text, or of parts. */
  lemma {:induction false} InsertedKinds(src: seq<Event>, k: nat)
    requires k < |Forward(src)| && Forward(src)[k].synthetic
    ensures var e := Forward(src)[k].event;
            e.kind.PartAdded? || (e.kind.ItemAdded? && e.item.itype == Some("message") && e.item.content == Some([]))
  {
    var rest := Init(src);
    if k < |Forward(rest)| {
      InsertedKinds(rest, k);
    } else {
      assert Forward(src)[k] == Emit(BookAfter(rest), Last(src))[k - |Forward(rest)|];
    }
  }
}
